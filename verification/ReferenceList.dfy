/** The intrusive doubly linked list of the engine's references. */
module ReferenceList {

  class ArkNativeReference {
    var prev: ArkNativeReference?
    var next: ArkNativeReference?

    constructor ()
      ensures prev == null && next == null
    {
      prev, next := null, null;
    }
  }

  ghost predicate Distinct<T>(s: seq<T>) {
    forall i, j | 0 <= i < j < |s| :: s[i] != s[j]
  }

  function Without<T(==)>(s: seq<T>, x: T): seq<T> {
    if s == [] then [] else if s[0] == x then s[1..] else [s[0]] + Without(s[1..], x)
  }

  // The i-th element taken out.
  function Cut<T>(s: seq<T>, i: nat): seq<T>
    requires i < |s|
  {
    s[..i] + s[i + 1..]
  }

  lemma CutDistinct<T>(s: seq<T>, i: nat)
    requires Distinct(s) && i < |s|
    ensures Distinct(Cut(s, i))
  {
  }

  lemma CutAway<T>(s: seq<T>, i: nat)
    requires Distinct(s) && i < |s|
    ensures s[i] !in Cut(s, i)
  {
  }

  lemma CutInside<T>(s: seq<T>, i: nat, x: T)
    requires i < |s|
    ensures x in s <==> x == s[i] || x in Cut(s, i)
  {
    assert s == s[..i] + [s[i]] + s[i + 1..];
  }

  lemma {:induction false} WithoutIs<T>(s: seq<T>, i: nat)
    requires Distinct(s) && i < |s|
    ensures Without(s, s[i]) == Cut(s, i)
    decreases i
  {
    if i > 0 {
      WithoutIs(s[1..], i - 1);
      assert s[..i] == [s[0]] + s[1..][..i - 1];
      assert s[1..][i..] == s[i + 1..];
    }
  }

  lemma {:induction false} WithoutNone<T>(s: seq<T>, x: T)
    requires x !in s
    ensures Without(s, x) == s
    decreases s
  {
    if s != [] {
      WithoutNone(s[1..], x);
    }
  }

  lemma CutCounts<T>(s: seq<T>, i: nat)
    requires i < |s|
    ensures multiset(s) == multiset(Cut(s, i)) + multiset{s[i]}
  {
    assert s == s[..i] + [s[i]] + s[i + 1..];
  }

  // What is left of s when the references in asked are deleted, those that are still members.
  function Left<T(==)>(s: seq<T>, asked: seq<T>): seq<T>
    decreases |asked|
  {
    if asked == [] then s else Left(Without(s, asked[0]), asked[1..])
  }

  lemma {:induction false} WithoutKeeps<T>(s: seq<T>, x: T)
    requires Distinct(s)
    ensures Distinct(Without(s, x))
    ensures forall y :: y in Without(s, x) <==> y in s && y != x
  {
    if x in s {
      var i :| 0 <= i < |s| && s[i] == x;
      WithoutIs(s, i);
      CutDistinct(s, i);
      CutAway(s, i);
      forall y ensures y in Cut(s, i) <==> y in s && y != x { CutInside(s, i, y); }
    } else {
      WithoutNone(s, x);
    }
  }

  /** Exactly the references that were asked for are gone. */
  lemma {:induction false} LeftKeeps<T>(s: seq<T>, asked: seq<T>)
    requires Distinct(s)
    ensures Distinct(Left(s, asked))
    ensures forall y :: y in Left(s, asked) <==> y in s && y !in asked
    decreases |asked|
  {
    if asked != [] {
      WithoutKeeps(s, asked[0]);
      LeftKeeps(Without(s, asked[0]), asked[1..]);
      assert asked == [asked[0]] + asked[1..];
    }
  }

  // The links once the i-th member has been cut out: those of its neighbours have changed.
  lemma PrevsAfterCut(s: seq<ArkNativeReference>, i: nat)
    requires i < |s|
    requires forall k {:trigger s[k].prev} | 0 <= k < |s| ::
               s[k].prev == if k == i + 1 then (if i == 0 then null else s[i - 1]) else if k == 0 then null else s[k - 1]
    ensures var t := Cut(s, i);
            forall k {:trigger t[k].prev} | 0 <= k < |t| :: t[k].prev == if k == 0 then null else t[k - 1]
  {
    var t := Cut(s, i);
    forall k | 0 <= k < |t| ensures t[k].prev == if k == 0 then null else t[k - 1] {
      assert t[k] == s[if k < i then k else k + 1];
    }
  }

  lemma NextsAfterCut(s: seq<ArkNativeReference>, i: nat)
    requires i < |s|
    requires forall k {:trigger s[k].next} | 0 <= k < |s| ::
               s[k].next == if k == i - 1 then (if i == |s| - 1 then null else s[i + 1]) else if k == |s| - 1 then null else s[k + 1]
    ensures var t := Cut(s, i);
            forall k {:trigger t[k].next} | 0 <= k < |t| :: t[k].next == if k == |t| - 1 then null else t[k + 1]
  {
    var t := Cut(s, i);
    forall k | 0 <= k < |t| ensures t[k].next == if k == |t| - 1 then null else t[k + 1] {
      assert t[k] == s[if k < i then k else k + 1];
    }
  }

  // What one finalizer does to the list.
  datatype Ask = Ask(deletes: seq<ArkNativeReference>, creates: nat)

  const NOTHING := Ask([], 0)

  class NativeReferenceManager {
    var references: ArkNativeReference?
    ghost var nodes: seq<ArkNativeReference>
    ghost var known: set<ArkNativeReference>  // every reference ever registered

    constructor ()
      ensures Valid() && nodes == []
    {
      references := null;
      nodes, known := [], {};
    }

    ghost predicate Linked()
      reads this, known
    {
      Distinct(nodes) && (forall i | 0 <= i < |nodes| :: nodes[i] in known)
      && (forall i {:trigger nodes[i].prev} | 0 <= i < |nodes| :: nodes[i].prev == if i == 0 then null else nodes[i - 1])
      && (forall i {:trigger nodes[i].next} | 0 <= i < |nodes| :: nodes[i].next == if i == |nodes| - 1 then null else nodes[i + 1])
    }

    /** prev and next are inverse to each other, and the chain from references is exactly nodes. */
    ghost predicate Valid()
      reads this, known
    {
      Linked() && references == if nodes == [] then null else nodes[0]
    }

    method CreateHandler(reference: ArkNativeReference)
      requires Valid() && reference !in nodes && reference.prev == null && reference.next == null
      modifies this, reference, known
      ensures Valid() && nodes == [reference] + old(nodes) && known == old(known) + {reference}
    {
      if references != null {
        references.prev := reference;
        reference.next := references;
      }
      references := reference;
      nodes, known := [reference] + nodes, known + {reference};
    }

    // The caller is either outside the destructor, or the destructor, which has stepped over the
    // first member before it deletes it.
    method ReleaseHandler(reference: ArkNativeReference, ghost i: nat)
      requires Linked() && i < |nodes| && nodes[i] == reference
      requires Valid() || (i == 0 && references == reference.next)
      modifies this`references, this`nodes, known
      ensures Valid() && nodes == Cut(old(nodes), i)
      ensures reference.prev == old(reference.prev) && reference.next == old(reference.next)
    {
      CutDistinct(nodes, i);
      var prev, next := reference.prev, reference.next;
      if prev != null {
        prev.next := next;
      }
      if reference == references {
        references := next;
      }
      if next != null {
        next.prev := prev;
      }
      ghost var before := nodes;
      nodes := Cut(nodes, i);
      PrevsAfterCut(before, i);
      NextsAfterCut(before, i);
    }

    // Deleting a reference: it leaves the list and forgets its neighbours.
    method Delete(reference: ArkNativeReference, ghost i: nat)
      requires Linked() && i < |nodes| && nodes[i] == reference
      requires Valid() || (i == 0 && references == reference.next)
      modifies this`references, this`nodes, known
      ensures Valid() && nodes == Cut(old(nodes), i)
      ensures reference.prev == null && reference.next == null
    {
      CutAway(nodes, i);
      ReleaseHandler(reference, i);
      reference.prev := null;
      reference.next := null;
    }

    // The user deletes a reference, unless it is gone already.
    method DeleteIfMember(reference: ArkNativeReference) returns (gone: bool)
      requires Valid()
      modifies this`references, this`nodes, known
      ensures Valid() && gone == (reference in old(nodes)) && nodes == Without(old(nodes), reference)
      ensures multiset(old(nodes)) == multiset(nodes) + if gone then multiset{reference} else multiset{}
    {
      ghost var i;
      gone, i := Find(reference);
      if gone {
        WithoutIs(nodes, i);
        CutCounts(nodes, i);
        Delete(reference, i);
      } else {
        WithoutNone(nodes, reference);
      }
    }

    // Follows next from the head.
    method Find(reference: ArkNativeReference) returns (member: bool, ghost i: nat)
      requires Valid()
      ensures member == (reference in nodes)
      ensures member ==> i < |nodes| && nodes[i] == reference
    {
      var r := references;
      i := 0;
      while r != null && r != reference
        invariant 0 <= i <= |nodes| && r == if i == |nodes| then null else nodes[i]
        invariant forall k | 0 <= k < i :: nodes[k] != reference
        decreases |nodes| - i
      {
        r := r.next;
        i := i + 1;
      }
      member := r != null;
    }

    // References a finalizer creates: each becomes the head.
    method Create(n: nat) returns (created: seq<ArkNativeReference>)
      requires Valid()
      modifies this, known
      ensures Valid() && nodes == created + old(nodes) && |created| == n
      ensures forall x | x in known :: x in old(known) || fresh(x)
      ensures forall x | x in created :: fresh(x)
    {
      created := [];
      for i := 0 to n
        invariant Valid() && nodes == created + old(nodes) && |created| == i
        invariant forall x | x in known :: x in old(known) || fresh(x)
        invariant forall x | x in created :: fresh(x)
      {
        var reference := new ArkNativeReference();
        CreateHandler(reference);
        created := [reference] + created;
      }
    }

    // A finalizer of the user that deletes the named references, those that are still members.
    method DeleteMembers(asked: seq<ArkNativeReference>) returns (deleted: seq<ArkNativeReference>)
      requires Valid()
      modifies this`references, this`nodes, known
      ensures Valid() && nodes == Left(old(nodes), asked) && (asked == [] ==> deleted == [])
      ensures multiset(old(nodes)) == multiset(deleted) + multiset(nodes)
    {
      deleted := [];
      for i := 0 to |asked|
        invariant Valid() && Left(nodes, asked[i..]) == Left(old(nodes), asked)
        invariant multiset(old(nodes)) == multiset(deleted) + multiset(nodes)
        invariant i == 0 ==> deleted == []
      {
        assert asked[i..][0] == asked[i] && asked[i..][1..] == asked[i + 1..];
        var gone := DeleteIfMember(asked[i]);
        if gone {
          deleted := deleted + [asked[i]];
        }
      }
    }

    // One turn of the destructor's loop: the head is deleted, then its finalizer runs.
    method DeleteHead(ask: Ask) returns (deleted: seq<ArkNativeReference>, created: seq<ArkNativeReference>)
      requires Valid() && nodes != []
      modifies this, known
      ensures Valid() && nodes == created + Left(old(nodes)[1..], ask.deletes) && |created| == ask.creates
      ensures deleted != [] && deleted[0] == old(nodes)[0]
      ensures Balanced(old(nodes), created, deleted, nodes)
      ensures ask.deletes == [] ==> deleted == [old(nodes)[0]]
      ensures forall x | x in known :: x in old(known) || fresh(x)
      ensures forall x | x in created :: fresh(x)
    {
      HeadCount(nodes);
      var handler := references;
      StepOver();
      deleted := DeleteMembers(ask.deletes);
      deleted := [handler] + deleted;
      ghost var left := nodes;
      created := Create(ask.creates);
      assert multiset(created + left) == multiset(created) + multiset(left);
    }

    // The walk moves on before it deletes the member it stood on.
    method StepOver()
      requires Valid() && nodes != []
      modifies this`references, this`nodes, known
      ensures Valid() && nodes == old(nodes)[1..]
    {
      var handler := references;
      references := handler.next;
      Delete(handler, 0);
    }

    /** The destructor: whatever members the finalizers delete on the way, and whatever references they
        create, every member, those created included, is deleted exactly once; left alone, the walk
        goes from the head to the end. It ends if the finalizers do not create without end. */
    method Destroy(asked: seq<Ask>) returns (deleted: seq<ArkNativeReference>, created: seq<ArkNativeReference>)
      requires Valid()
      modifies this, known
      ensures Valid() && nodes == [] && references == null
      ensures multiset(deleted) == multiset(old(nodes)) + multiset(created)
      ensures forall x | x in created :: fresh(x)
      ensures asked == [] ==> deleted == old(nodes) && created == []
    {
      deleted, created := [], [];
      var script := asked;
      while references != null
        invariant Valid()
        invariant Balanced(old(nodes), created, deleted, nodes)
        invariant forall x | x in known :: x in old(known) || fresh(x)
        invariant forall x | x in created :: fresh(x)
        invariant asked == [] ==> script == [] && deleted + nodes == old(nodes) && created == []
        decreases |script|, |nodes|
      {
        deleted, created := OneTurn(if script == [] then NOTHING else script[0], deleted, created, old(nodes));
        script := if script == [] then [] else script[1..];
      }
    }

    // The body of that loop, with what was deleted and created so far.
    method OneTurn(ask: Ask, deleted: seq<ArkNativeReference>, created: seq<ArkNativeReference>, ghost start: seq<ArkNativeReference>)
      returns (nowDeleted: seq<ArkNativeReference>, nowCreated: seq<ArkNativeReference>)
      requires Valid() && nodes != [] && Balanced(start, created, deleted, nodes)
      modifies this, known
      ensures Valid() && Balanced(start, nowCreated, nowDeleted, nodes)
      ensures forall x | x in known :: x in old(known) || fresh(x)
      ensures forall x | x in nowCreated :: x in created || fresh(x)
      ensures ask == NOTHING ==> nowCreated == created && |nodes| < |old(nodes)| && nowDeleted + nodes == deleted + old(nodes)
    {
      ghost var before := nodes;
      var now, more := DeleteHead(ask);
      StaysBalanced(start, created, deleted, before, more, now, nodes);
      nowDeleted, nowCreated := deleted + now, created + more;
      assert ask == NOTHING ==> before == now + nodes;
    }
  }

  // Members at the start and those created are those deleted and those left.
  ghost predicate Balanced<T>(start: seq<T>, created: seq<T>, deleted: seq<T>, left: seq<T>) {
    multiset(start) + multiset(created) == multiset(deleted) + multiset(left)
  }

  lemma StaysBalanced<T>(start: seq<T>, created: seq<T>, deleted: seq<T>, before: seq<T>, more: seq<T>, now: seq<T>, after: seq<T>)
    requires Balanced(start, created, deleted, before) && Balanced(before, more, now, after)
    ensures Balanced(start, created + more, deleted + now, after)
  {
    assert multiset(created + more) == multiset(created) + multiset(more);
    assert multiset(deleted + now) == multiset(deleted) + multiset(now);
    Sums(multiset(start), multiset(created), multiset(more));
    Sums(multiset(deleted), multiset(before), multiset(more));
    Sums(multiset(deleted), multiset(now), multiset(after));
  }

  lemma Sums<T>(a: multiset<T>, b: multiset<T>, c: multiset<T>)
    ensures a + (b + c) == (a + b) + c
  {
  }

  lemma HeadCount<T>(s: seq<T>)
    requires s != []
    ensures multiset(s) == multiset{s[0]} + multiset(s[1..])
  {
    assert s == [s[0]] + s[1..];
  }
}
