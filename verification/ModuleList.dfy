/** The registry of native modules: a singly linked list with head and tail, prepend and append,
    removal of the first module of a given key, and a lookup that checks the module's path. */
module ModuleList {

  datatype Option<T> = None | Some(value: T)

  const NATIVE_PATH_NUMBER := 3

  class NativeModule {
    var name: Option<string>
    var moduleName: Option<string>
    var systemFilePath: Option<string>
    var next: NativeModule?

    constructor ()
      ensures name == None && moduleName == None && systemFilePath == None && next == null
    {
      name, moduleName, systemFilePath, next := None, None, None, null;
    }

    ghost function Info(): ModuleInfo
      reads this`name, this`moduleName, this`systemFilePath
    {
      ModuleInfo(name, moduleName, systemFilePath)
    }
  }

  datatype ModuleInfo = ModuleInfo(name: Option<string>, moduleName: Option<string>, systemFilePath: Option<string>)

  function Lower(c: char): char {
    if 'A' <= c <= 'Z' then ((c as int) + 32) as char else c
  }

  // !strcasecmp
  predicate SameIgnoringCase(a: string, b: string) {
    |a| == |b| && forall i :: 0 <= i < |a| ==> Lower(a[i]) == Lower(b[i])
  }

  // The letter in the other case, if it is a letter of the alphabet.
  predicate OtherCase(a: char, b: char) {
    exists i :: 0 <= i < 26 && ((a == LETTERS[i] && b == CAPITALS[i]) || (a == CAPITALS[i] && b == LETTERS[i]))
  }

  const LETTERS := "abcdefghijklmnopqrstuvwxyz"
  const CAPITALS := "ABCDEFGHIJKLMNOPQRSTUVWXYZ"

  lemma CapitalOf(i: nat)
    requires i < 26
    ensures LETTERS[i] as int == 'a' as int + i && CAPITALS[i] as int == 'A' as int + i
  {
  }

  lemma LowerIff(a: char, b: char)
    ensures Lower(a) == Lower(b) <==> a == b || OtherCase(a, b)
  {
    if OtherCase(a, b) {
      var i :| 0 <= i < 26 && ((a == LETTERS[i] && b == CAPITALS[i]) || (a == CAPITALS[i] && b == LETTERS[i]));
      CapitalOf(i);
    } else if Lower(a) == Lower(b) && a != b {
      var i := if 'A' <= a <= 'Z' then a as int - 'A' as int else b as int - 'A' as int;
      CapitalOf(i);
    }
  }

  /** Names are compared letter by letter: each pair is the same character or the same letter of the
      alphabet in the other case, and nothing else. */
  lemma SameIgnoringCaseIff(a: string, b: string)
    ensures SameIgnoringCase(a, b) <==>
              |a| == |b| && forall i :: 0 <= i < |a| ==> a[i] == b[i] || OtherCase(a[i], b[i])
  {
    if |a| == |b| {
      forall i | 0 <= i < |a| ensures Lower(a[i]) == Lower(b[i]) <==> a[i] == b[i] || OtherCase(a[i], b[i]) {
        LowerIff(a[i], b[i]);
      }
    }
  }

  // ---------------------------------------------------------------- what the operations mean

  predicate HasKey(m: ModuleInfo, key: string) {
    m.moduleName.Some? && SameIgnoringCase(m.moduleName.value, key)
  }

  // The position of the first module with this key, or the length.
  function FirstKey(list: seq<ModuleInfo>, key: string): (i: nat)
    ensures i <= |list| && (i < |list| ==> HasKey(list[i], key))
    ensures forall j :: 0 <= j < i ==> !HasKey(list[j], key)
  {
    if list == [] || HasKey(list[0], key) then 0 else 1 + FirstKey(list[1..], key)
  }

  function Without<T>(s: seq<T>, i: nat): seq<T> {
    if i < |s| then s[..i] + s[i + 1..] else s
  }

  predicate Named(m: ModuleInfo, moduleName: string) {
    (m.moduleName.Some? && m.moduleName.value == moduleName) || (m.name.Some? && SameIgnoringCase(m.name.value, moduleName))
  }

  // A module without a path, with an empty path, or with one of the candidate paths.
  predicate PathFits(m: ModuleInfo, paths: seq<string>) {
    m.systemFilePath.None? || m.systemFilePath.value == "" || m.systemFilePath.value in paths
  }

  // The first module of that name whose path fits, or the length.
  function FirstFit(list: seq<ModuleInfo>, moduleName: string, paths: seq<string>): (i: nat)
    ensures i <= |list| && (i < |list| ==> Named(list[i], moduleName) && PathFits(list[i], paths))
    ensures forall j :: 0 <= j < i ==> !(Named(list[j], moduleName) && PathFits(list[j], paths))
  {
    if list == [] || (Named(list[0], moduleName) && PathFits(list[0], paths)) then 0
    else 1 + FirstFit(list[1..], moduleName, paths)
  }

  lemma FirstKeyIs(list: seq<ModuleInfo>, key: string, k: nat)
    requires k <= |list| && (k < |list| ==> HasKey(list[k], key)) && forall j :: 0 <= j < k ==> !HasKey(list[j], key)
    ensures FirstKey(list, key) == k
  {
  }

  lemma FirstFitIs(list: seq<ModuleInfo>, moduleName: string, paths: seq<string>, k: nat)
    requires k <= |list| && (k < |list| ==> Named(list[k], moduleName) && PathFits(list[k], paths))
    requires forall j :: 0 <= j < k ==> !(Named(list[j], moduleName) && PathFits(list[j], paths))
    ensures FirstFit(list, moduleName, paths) == k
  {
  }

  function Matches(list: seq<ModuleInfo>, key: string): nat {
    if list == [] then 0 else (if HasKey(list[0], key) then 1 else 0) + Matches(list[1..], key)
  }

  /** Each removal takes one match, so as many removals succeed as there are matches, and no more. */
  lemma {:induction false} RemovalTakesOneMatch(list: seq<ModuleInfo>, key: string)
    ensures var i := FirstKey(list, key);
            && Matches(Without(list, i), key) == (if i < |list| then Matches(list, key) - 1 else 0)
            && (i < |list| <==> Matches(list, key) > 0)
    decreases |list|
  {
    if list != [] {
      var i, rest := FirstKey(list, key), list[1..];
      RemovalTakesOneMatch(rest, key);
      if i == 0 {
        assert Without(list, 0) == rest;
      } else {
        assert Without(list, i) == if i < |list| then [list[0]] + Without(rest, i - 1) else list;
        assert Without(list, i)[1..] == Without(rest, i - 1);
      }
    }
  }

  /** Which name counts how: the lookup takes moduleName as it is written and name in any case, the
      removal moduleName in any case and name not at all; a module with another path is passed over. */
  lemma WhichNamesMatch()
    ensures var byModule := ModuleInfo(None, Some("Ab"), Some("/x"));
            var byName := ModuleInfo(Some("Ab"), None, Some(""));
            var paths := ["/y", "/z", "/x"];
            && Named(byModule, "Ab") && !Named(byModule, "ab") && Named(byName, "ab") && !Named(byName, "abc")
            && HasKey(byModule, "aB") && !HasKey(byName, "Ab")
            && PathFits(byModule, paths) && !PathFits(byModule, ["/y", "/z", "/w"]) && PathFits(byName, paths)
            && PathFits(ModuleInfo(None, None, None), ["/y", "/z", "/w"])
  {
    assert "Ab"[0] != "ab"[0] && "Ab" != "ab";
    assert ["/y", "/z", "/x"][2] == "/x";
    assert "/x"[1] != "/y"[1] && "/x"[1] != "/z"[1] && "/x"[1] != "/w"[1];
  }

  // ---------------------------------------------------------------- the list

  ghost predicate Distinct<T>(s: seq<T>) {
    forall i, j :: 0 <= i < j < |s| ==> s[i] != s[j]
  }

  // The chain runs through the nodes in order and ends after the last.
  ghost predicate Chained(s: seq<NativeModule>)
    reads s
  {
    forall i {:trigger s[i].next} :: 0 <= i < |s| ==> s[i].next == if i == |s| - 1 then null else s[i + 1]
  }

  lemma WithoutDistinct<T>(s: seq<T>, k: nat)
    requires k < |s| && Distinct(s)
    ensures Distinct(Without(s, k))
  {
  }

  // The chain once the node before position k points past it.
  lemma ChainedWithout(s: seq<NativeModule>, k: nat)
    requires k < |s|
    requires forall i {:trigger s[i].next} :: 0 <= i < |s| && i != k ==>
               s[i].next == if i + 1 == k then (if k == |s| - 1 then null else s[k + 1]) else if i == |s| - 1 then null else s[i + 1]
    ensures Chained(Without(s, k))
  {
    var t := Without(s, k);
    forall i | 0 <= i < |t| ensures t[i].next == if i == |t| - 1 then null else t[i + 1] {
      assert t[i] == s[if i < k then i else i + 1];
    }
  }

  class NativeModuleList {
    var head: NativeModule?
    var tail: NativeModule?
    ghost var nodes: seq<NativeModule>

    ghost predicate Valid()
      reads this, nodes
    {
      && head == (if nodes == [] then null else nodes[0])
      && tail == (if nodes == [] then null else nodes[|nodes| - 1])
      && Distinct(nodes) && Chained(nodes)
    }

    ghost function Contents(): (s: seq<ModuleInfo>)
      reads this, nodes
      ensures |s| == |nodes|
      ensures forall i :: 0 <= i < |s| ==> s[i] == nodes[i].Info()
    {
      seq(|nodes|, i requires 0 <= i < |nodes| reads this, nodes => nodes[i].Info())
    }

    constructor ()
      ensures Valid() && nodes == []
    {
      head, tail, nodes := null, null, [];
    }

    method CreateHeadNativeModule()
      requires Valid()
      modifies this
      ensures Valid() && nodes != [] && fresh(nodes[0]) && nodes == [nodes[0]] + old(nodes)
      ensures Contents() == [ModuleInfo(None, None, None)] + old(Contents())
    {
      if head == tail && tail == null {
        head := new NativeModule();
        tail := head;
        nodes := [head];
      } else {
        var h := new NativeModule();
        h.next := head;
        head := h;
        nodes := [h] + nodes;
      }
    }

    method CreateTailNativeModule()
      requires Valid()
      modifies this, nodes
      ensures Valid() && nodes != [] && fresh(nodes[|nodes| - 1]) && nodes == old(nodes) + [nodes[|nodes| - 1]]
      ensures Contents() == old(Contents()) + [ModuleInfo(None, None, None)]
    {
      if head == tail && tail == null {
        head := new NativeModule();
        tail := head;
        nodes := [head];
      } else {
        var t := new NativeModule();
        tail.next := t;
        tail := tail.next;
        nodes := nodes + [t];
      }
    }

    /** Deletes the first module with the key, the head included, and only that one. */
    method RemoveNativeModuleByCacheLocked(moduleKey: string) returns (deleted: bool)
      requires Valid()
      modifies this, nodes
      ensures Valid()
      ensures var i := FirstKey(old(Contents()), moduleKey);
              && deleted == (i < |old(nodes)|)
              && nodes == Without(old(nodes), i) && Contents() == Without(old(Contents()), i)
    {
      ghost var infos := Contents();
      if head == null {
        return false;
      }
      assert infos[0] == head.Info();
      if head.moduleName.Some? && SameIgnoringCase(head.moduleName.value, moduleKey) {
        FirstKeyIs(infos, moduleKey, 0);
        RemoveHead();
        return true;
      }
      deleted := RemoveBehindHead(moduleKey);
    }

    method RemoveBehindHead(moduleKey: string) returns (deleted: bool)
      requires Valid() && nodes != [] && !HasKey(nodes[0].Info(), moduleKey)
      modifies this, nodes
      ensures Valid()
      ensures var i := FirstKey(old(Contents()), moduleKey);
              && deleted == (i < |old(nodes)|)
              && nodes == Without(old(nodes), i) && Contents() == Without(old(Contents()), i)
    {
      var prev, curr;
      ghost var k;
      prev, curr, k := FindKey(moduleKey);
      if curr != null {
        RemoveAfter(prev, curr, k);
      }
      deleted := curr != null;
    }

    method RemoveHead()
      requires Valid() && nodes != []
      modifies this
      ensures Valid() && nodes == Without(old(nodes), 0) && Contents() == Without(old(Contents()), 0)
    {
      ghost var all, infos := nodes, Contents();
      if head == tail {
        tail := null;
      }
      head := head.next;
      nodes := Without(all, 0);
      WithoutDistinct(all, 0);
      ChainedWithout(all, 0);
      InfosWithout(all, infos, 0);
    }

    method RemoveAfter(prev: NativeModule, curr: NativeModule, ghost k: nat)
      requires Valid() && 1 <= k < |nodes| && prev == nodes[k - 1] && curr == nodes[k]
      modifies this, prev`next
      ensures Valid() && nodes == Without(old(nodes), k) && Contents() == Without(old(Contents()), k)
    {
      ghost var all, infos := nodes, Contents();
      if curr == tail {
        tail := prev;
      }
      prev.next := curr.next;
      nodes := Without(all, k);
      assert Distinct(nodes) by { WithoutDistinct(all, k); }
      assert Chained(nodes) by { ChainedWithout(all, k); }
      assert Contents() == Without(infos, k) by { InfosWithout(all, infos, k); }
    }

    lemma InfosWithout(all: seq<NativeModule>, infos: seq<ModuleInfo>, k: nat)
      requires k < |infos| == |all| && nodes == Without(all, k)
      requires forall i :: 0 <= i < |all| ==> all[i].Info() == infos[i]
      ensures Contents() == Without(infos, k)
    {
      forall i | 0 <= i < |nodes| ensures Contents()[i] == Without(infos, k)[i] {
        assert nodes[i] == all[if i < k then i else i + 1];
      }
    }

    // The search behind the head; curr is null if no module has the key.
    method FindKey(moduleKey: string) returns (prev: NativeModule, curr: NativeModule?, ghost k: nat)
      requires Valid() && nodes != [] && !HasKey(nodes[0].Info(), moduleKey)
      ensures 1 <= k <= |nodes| && prev == nodes[k - 1] && curr == (if k < |nodes| then nodes[k] else null)
      ensures k == FirstKey(Contents(), moduleKey)
    {
      prev := head;
      curr := prev.next;
      k := 1;
      while curr != null && !(curr.moduleName.Some? && SameIgnoringCase(curr.moduleName.value, moduleKey))
        invariant 1 <= k <= |nodes| && prev == nodes[k - 1] && curr == (if k < |nodes| then nodes[k] else null)
        invariant forall j :: 0 <= j < k ==> !HasKey(nodes[j].Info(), moduleKey)
        decreases |nodes| - k
      {
        prev := prev.next;
        curr := prev.next;
        k := k + 1;
      }
      if k < |nodes| { assert HasKey(Contents()[k], moduleKey); }
      FirstKeyIs(Contents(), moduleKey, k);
    }

    /** The lookup. `loading` is the earlier match remembered while that module was loading; the
        answer is the first module of the name whose path fits, unless it is the one being loaded,
        and `conflict` the last same-named module passed over because of its path. */
    method FindNativeModuleByCache(moduleName: string, paths: seq<string>, loading: NativeModule?,
                                   checkLoading: bool, loadingKey: string)
      returns (result: NativeModule?, conflict: NativeModule?, newLoading: NativeModule?)
      requires Valid() && |paths| == NATIVE_PATH_NUMBER
      ensures !checkLoading && loading != null ==> result == loading && conflict == null && newLoading == loading
      ensures checkLoading || loading == null ==>
                var i := FirstFit(Contents(), moduleName, paths);
                var found := if i < |nodes| then nodes[i] else null;
                var isLoading := found != null && checkLoading && SameIgnoringCase(loadingKey, moduleName);
                && result == (if isLoading then null else found)
                && newLoading == (if isLoading then found else loading)
                && LastConflict(moduleName, paths, i, conflict)
    {
      result, conflict, newLoading := null, null, loading;
      if !checkLoading && loading != null {
        return loading, null, loading;
      }
      ghost var k;
      result, conflict, k := Search(moduleName, paths);
      if result != null && checkLoading && SameIgnoringCase(loadingKey, moduleName) {
        newLoading := result;
        result := null;
      }
    }

    method Search(moduleName: string, paths: seq<string>)
      returns (result: NativeModule?, conflict: NativeModule?, ghost k: nat)
      requires Valid() && |paths| == NATIVE_PATH_NUMBER
      ensures k == FirstFit(Contents(), moduleName, paths) && result == (if k < |nodes| then nodes[k] else null)
      ensures LastConflict(moduleName, paths, k, conflict)
    {
      result, conflict, k := null, null, 0;
      ghost var c := -1;  // where the conflict was seen
      var temp := head;
      while temp != null
        invariant 0 <= k <= |nodes| && temp == (if k < |nodes| then nodes[k] else null)
        invariant result == null
        invariant NoneFits(moduleName, paths, k)
        invariant -1 <= c < k && conflict == (if c >= 0 then nodes[c] else null)
        invariant LastBefore(c, k, moduleName, paths)
        decreases |nodes| - k
      {
        var named, fits := Check(temp, moduleName, paths);
        if fits {
          result := temp;
          break;
        }
        if named {
          conflict, c := temp, k;
        }
        temp := temp.next;
        k := k + 1;
      }
      FirstFitIs(Contents(), moduleName, paths, k);
    }

    ghost predicate NoneFits(moduleName: string, paths: seq<string>, k: nat)
      reads this, nodes
      requires k <= |nodes|
    {
      forall j :: 0 <= j < k ==> !(Named(nodes[j].Info(), moduleName) && PathFits(nodes[j].Info(), paths))
    }

    // c is the last position before k with a conflict, -1 if there is none.
    ghost predicate LastBefore(c: int, k: nat, moduleName: string, paths: seq<string>)
      reads this, nodes
      requires -1 <= c < k <= |nodes|
    {
      (c >= 0 ==> Conflicts(c, moduleName, paths)) && forall l :: c < l < k ==> !Conflicts(l, moduleName, paths)
    }

    // `m` is the last node before position k that has the name but not the path.
    ghost predicate LastConflict(moduleName: string, paths: seq<string>, k: nat, m: NativeModule?)
      reads this, nodes
      requires k <= |nodes|
    {
      if m == null then forall j :: 0 <= j < k ==> !Conflicts(j, moduleName, paths)
      else exists j :: 0 <= j < k && nodes[j] == m && Conflicts(j, moduleName, paths)
                       && forall l :: j < l < k ==> !Conflicts(l, moduleName, paths)
    }

    ghost predicate Conflicts(j: nat, moduleName: string, paths: seq<string>)
      reads this, nodes
      requires j < |nodes|
    {
      Named(nodes[j].Info(), moduleName) && !PathFits(nodes[j].Info(), paths)
    }
  }

  // Whether the module has the name, and then whether its path fits.
  method Check(m: NativeModule, moduleName: string, paths: seq<string>) returns (named: bool, fits: bool)
    requires |paths| == NATIVE_PATH_NUMBER
    ensures named == Named(m.Info(), moduleName) && fits == (named && PathFits(m.Info(), paths))
  {
    named := (m.moduleName.Some? && m.moduleName.value == moduleName)
             || (m.name.Some? && SameIgnoringCase(m.name.value, moduleName));
    if !named {
      return false, false;
    }
    var slot := FirstLabel(m.systemFilePath, paths);
    fits := slot < NATIVE_PATH_NUMBER || (m.systemFilePath.Some? && m.systemFilePath.value == "");
  }

  // The inner loop of the lookup: the first candidate equal to the path, 0 without a path.
  method FirstLabel(path: Option<string>, paths: seq<string>) returns (slot: nat)
    ensures slot <= |paths|
    ensures path.None? ==> slot == 0
    ensures path.Some? ==> forall i :: 0 <= i < slot ==> paths[i] != path.value
    ensures path.Some? && slot < |paths| ==> paths[slot] == path.value
  {
    slot := 0;
    while slot < |paths| && path.Some? && path.value != paths[slot]
      invariant slot <= |paths| && (path.None? ==> slot == 0)
      invariant path.Some? ==> forall i :: 0 <= i < slot ==> paths[i] != path.value
    {
      slot := slot + 1;
    }
  }
}
