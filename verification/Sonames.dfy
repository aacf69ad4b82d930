/** The greylist of shared libraries: parsing the configuration, validating names, and writing the
    colon-separated buffer that is handed to the linker. Characters stand for bytes. */
module Sonames {

  datatype Option<T> = None | Some(value: T)

  const NAME_MAX := 255

  // ---------------------------------------------------------------- valid names

  predicate IsAlnum(c: char) {
    '0' <= c <= '9' || 'a' <= c <= 'z' || 'A' <= c <= 'Z'
  }

  predicate NameChar(c: char) {
    c as int >= 0x80 || IsAlnum(c) || c == '.' || c == '_' || c == '-'
  }

  predicate HasThreeDots(s: string) {
    exists i :: 0 <= i < |s| - 2 && s[i] == '.' && s[i + 1] == '.' && s[i + 2] == '.'
  }

  predicate EndsInSo(s: string) {
    |s| >= 3 && s[|s| - 3..] == ".so"
  }

  predicate ValidLibName(s: string) {
    4 <= |s| < NAME_MAX && EndsInSo(s) && (forall i :: 0 <= i < |s| ==> NameChar(s[i])) && !HasThreeDots(s)
  }

  method IsValidLibNameStrict(libName: string) returns (valid: bool)
    ensures valid == ValidLibName(libName)
  {
    if |libName| < 4 || |libName| >= NAME_MAX {
      return false;
    }
    if libName[|libName| - 3..] != ".so" {
      return false;
    }
    for i := 0 to |libName|
      invariant forall j :: 0 <= j < i ==> NameChar(libName[j])
    {
      var c := libName[i];
      if c as int >= 0x80 {
        continue;
      }
      if !IsAlnum(c) && c != '.' && c != '_' && c != '-' {
        return false;
      }
    }
    valid := true;
    for i := 0 to |libName| - 2
      invariant valid && forall j :: 0 <= j < i ==> !(libName[j] == '.' && libName[j + 1] == '.' && libName[j + 2] == '.')
    {
      if libName[i] == '.' && libName[i + 1] == '.' && libName[i + 2] == '.' {
        return false;
      }
    }
  }

  // The bytes a name may have, by number: digits, capitals, small letters, '_', '-', '.', and all bytes
  // that are not ASCII.
  predicate NameByte(b: int) {
    48 <= b <= 57 || 65 <= b <= 90 || 97 <= b <= 122 || b == 95 || b == 45 || b == 46 || b >= 128
  }

  /** A name is valid if and only if it is a stem of 1 to 251 such bytes followed by ".so", with no three
      dots in a row. */
  lemma ValidNameIff(stem: string)
    ensures ValidLibName(stem + ".so") <==>
              && 1 <= |stem| <= 251 && (forall i :: 0 <= i < |stem| ==> NameByte(stem[i] as int))
              && !(exists i :: 0 <= i < |stem| + 1 && (stem + ".so")[i] == '.' && (stem + ".so")[i + 1] == '.' && (stem + ".so")[i + 2] == '.')
  {
    var s := stem + ".so";
    assert |s| == |stem| + 3 && s[|s| - 3..] == ".so";
    StemChars(stem);
    ThreeDots(stem);
  }

  lemma StemChars(stem: string)
    ensures (forall i :: 0 <= i < |stem + ".so"| ==> NameChar((stem + ".so")[i])) <==> forall i :: 0 <= i < |stem| ==> NameByte(stem[i] as int)
  {
    var s := stem + ".so";
    assert forall i :: 0 <= i < |s| ==> s[i] == if i < |stem| then stem[i] else ".so"[i - |stem|];
    assert forall i :: 0 <= i < |stem| ==> NameChar(s[i]) == NameByte(stem[i] as int);
  }

  lemma ThreeDots(stem: string)
    ensures HasThreeDots(stem + ".so") <==>
              exists i :: 0 <= i < |stem| + 1 && (stem + ".so")[i] == '.' && (stem + ".so")[i + 1] == '.' && (stem + ".so")[i + 2] == '.'
  {
  }

  lemma ValidEndsInSo(s: string)
    requires ValidLibName(s)
    ensures s == s[..|s| - 3] + ".so"
  {
  }

  // ---------------------------------------------------------------- parsing

  predicate TrimChar(c: char) {
    c == ' ' || c == '\t' || c == '\n' || c == '\r' || c == '"'
  }

  // find(c): the first position, or the length.
  function Find(s: string, c: char): (k: nat)
    ensures k <= |s| && (k < |s| ==> s[k] == c) && forall i :: 0 <= i < k ==> s[i] != c
  {
    if s == [] || s[0] == c then 0 else 1 + Find(s[1..], c)
  }

  // rfind(c): the last position plus one, or 0.
  function FindLast(s: string, c: char): (k: nat)
    ensures k <= |s| && (k > 0 ==> s[k - 1] == c) && forall i :: k <= i < |s| ==> s[i] != c
  {
    if s == [] || s[|s| - 1] == c then |s| else FindLast(s[..|s| - 1], c)
  }

  // Exactly one '[' and one ']', in that order: the text between them.
  function ArrayContent(content: string): Option<string> {
    var start, last := Find(content, '['), FindLast(content, ']');
    if start == |content| || last == 0 || start != FindLast(content, '[') - 1 || last - 1 != Find(content, ']') || start >= last - 1
    then None
    else Some(content[start + 1..last - 1])
  }

  // The items std::getline produces.
  function Items(s: string): seq<string>
    decreases |s|
  {
    if s == [] then []
    else
      var k := Find(s, ',');
      [s[..k]] + if k < |s| then Items(s[k + 1..]) else []
  }

  function TrimLeft(s: string): string {
    if s != [] && TrimChar(s[0]) then TrimLeft(s[1..]) else s
  }

  function TrimRight(s: string): string {
    if s != [] && TrimChar(s[|s| - 1]) then TrimRight(s[..|s| - 1]) else s
  }

  function Trim(s: string): string {
    TrimRight(TrimLeft(s))
  }

  function Accepted(items: seq<string>): (names: seq<string>)
    ensures forall i :: 0 <= i < |names| ==> ValidLibName(names[i])
  {
    if items == [] then []
    else (if ValidLibName(Trim(items[0])) then [Trim(items[0])] else []) + Accepted(items[1..])
  }

  function NamesIn(body: string): (names: seq<string>)
    ensures forall i :: 0 <= i < |names| ==> ValidLibName(names[i])
  {
    Accepted(Items(body))
  }

  // LoadGreylistConfig on the file's content; empty where it returns false.
  function Parse(content: string): (names: seq<string>)
    ensures forall i :: 0 <= i < |names| ==> ValidLibName(names[i])
  {
    match ArrayContent(content) case None => [] case Some(body) => NamesIn(body)
  }

  lemma ParseCases(content: string)
    ensures ArrayContent(content).None? ==> Parse(content) == []
    ensures ArrayContent(content).Some? ==> Parse(content) == NamesIn(ArrayContent(content).value)
  {
  }

  // The text between the brackets of the one list, if there is exactly one.
  method FindArray(content: string) returns (found: bool, body: string)
    ensures ArrayContent(content) == if found then Some(body) else None
  {
    var start, end := Find(content, '['), FindLast(content, ']');
    if start == |content| || end == 0 || start != FindLast(content, '[') - 1 || end - 1 != Find(content, ']') || start >= end - 1 {
      return false, [];
    }
    return true, content[start + 1..end - 1];
  }

  method LoadGreylistConfig(content: string) returns (found: bool, greylistLibs: seq<string>)
    ensures greylistLibs == Parse(content) && found == (greylistLibs != [])
  {
    ParseCases(content);
    var body;
    found, body := FindArray(content);
    if !found {
      return false, [];
    }
    greylistLibs := AcceptItems(body);
    found := greylistLibs != [];
  }

  // What the first item contributes, and the text after it.
  function FirstName(s: string): seq<string> {
    var name := Trim(s[..Find(s, ',')]);
    if ValidLibName(name) then [name] else []
  }

  function AfterItem(s: string): string {
    if Find(s, ',') < |s| then s[Find(s, ',') + 1..] else []
  }

  lemma FirstItem(s: string)
    requires s != []
    ensures NamesIn(s) == FirstName(s) + NamesIn(AfterItem(s))
  {
    assert Items(s) == [s[..Find(s, ',')]] + Items(AfterItem(s));
    AcceptedMore(s[..Find(s, ',')], Items(AfterItem(s)));
  }

  lemma TakeItem(names: seq<string>, rest: string)
    requires rest != []
    ensures names + NamesIn(rest) == (names + FirstName(rest)) + NamesIn(AfterItem(rest))
  {
    FirstItem(rest);
    Grouped(names, FirstName(rest), NamesIn(AfterItem(rest)));
  }

  lemma Grouped(a: seq<string>, b: seq<string>, c: seq<string>)
    ensures a + (b + c) == (a + b) + c
  {
  }

  // The loop over the comma-separated items.
  method AcceptItems(body: string) returns (names: seq<string>)
    ensures names == NamesIn(body)
  {
    names := [];
    var rest := body;
    while rest != []
      invariant names + NamesIn(rest) == NamesIn(body)
      decreases |rest|
    {
      TakeItem(names, rest);
      names := AddItem(names, rest);
      rest := AfterItem(rest);
    }
  }

  method AddItem(names: seq<string>, rest: string) returns (more: seq<string>)
    ensures more == names + FirstName(rest)
  {
    var valid, libName := CheckItem(rest[..Find(rest, ',')]);
    more := if valid then names + [libName] else names;
  }

  // Trim one item, drop a trailing quote, validate.
  method CheckItem(item: string) returns (valid: bool, libName: string)
    ensures valid == ValidLibName(Trim(item)) && (valid ==> libName == Trim(item))
  {
    libName := Trim(item);
    if libName == [] {
      return false, libName;
    }
    if libName[|libName| - 1] == '"' {
      libName := libName[..|libName| - 1];
    }
    TrimEnds(item);
    valid := IsValidLibNameStrict(libName);
  }

  // Trimming leaves no blank or quote at either end, so there is no trailing quote to remove.
  lemma {:induction false} TrimEnds(s: string)
    ensures Trim(s) != [] ==> !TrimChar(Trim(s)[|Trim(s)| - 1])
  {
    TrimRightEnd(TrimLeft(s));
  }

  lemma {:induction false} TrimRightEnd(s: string)
    ensures TrimRight(s) != [] ==> !TrimChar(TrimRight(s)[|TrimRight(s)| - 1])
    decreases |s|
  {
    if s != [] && TrimChar(s[|s| - 1]) { TrimRightEnd(s[..|s| - 1]); }
  }

  // ---------------------------------------------------------------- round trip

  predicate BlankChar(c: char) {
    c as int == 0x20 || c as int == 0x09 || c as int == 0x0A || c as int == 0x0D || c as int == 0x22
  }

  // Spaces, tabs, line ends and double quotes.
  predicate Blank(s: string) {
    forall i :: 0 <= i < |s| ==> BlankChar(s[i])
  }

  predicate NoBrackets(s: string) {
    forall i :: 0 <= i < |s| ==> s[i] != '[' && s[i] != ']'
  }

  // One list element as written: a name, valid or not, between any blanks and quotes.
  datatype Item = Item(before: string, name: string, after: string)

  function Text(item: Item): string {
    item.before + item.name + item.after
  }

  predicate Written(item: Item) {
    && Blank(item.before) && Blank(item.after)
    && (forall i :: 0 <= i < |item.name| ==> item.name[i] != ',' && item.name[i] != '[' && item.name[i] != ']')
    && (item.name != [] ==> !BlankChar(item.name[0]) && !BlankChar(item.name[|item.name| - 1]))
  }

  lemma ValidIsWritten(before: string, name: string, after: string)
    requires Blank(before) && Blank(after) && ValidLibName(name)
    ensures Written(Item(before, name, after))
  {
    assert NameChar(name[0]) && NameChar(name[|name| - 1]);
    assert forall i :: 0 <= i < |name| ==> NameChar(name[i]);
  }

  function Join(items: seq<Item>): string {
    if items == [] then []
    else if |items| == 1 then Text(items[0])
    else Text(items[0]) + "," + Join(items[1..])
  }

  // The valid names, in order.
  function Names(items: seq<Item>): seq<string> {
    if items == [] then []
    else (if ValidLibName(items[0].name) then [items[0].name] else []) + Names(items[1..])
  }

  lemma {:induction false} AllValidNames(items: seq<Item>)
    requires forall i :: 0 <= i < |items| ==> ValidLibName(items[i].name)
    ensures |Names(items)| == |items| && forall i :: 0 <= i < |items| ==> Names(items)[i] == items[i].name
    decreases |items|
  {
    if items != [] {
      AllValidNames(items[1..]);
      assert Names(items) == [items[0].name] + Names(items[1..]);
    }
  }

  lemma {:induction false} TrimLeftBlank(a: string, s: string)
    requires Blank(a) && s != [] && !TrimChar(s[0])
    ensures TrimLeft(a + s) == s
    decreases |a|
  {
    if a == [] {
      assert a + s == s;
    } else {
      assert (a + s)[0] == a[0] && (a + s)[1..] == a[1..] + s;
      TrimLeftBlank(a[1..], s);
    }
  }

  lemma {:induction false} TrimRightBlank(s: string, b: string)
    requires Blank(b) && s != [] && !TrimChar(s[|s| - 1])
    ensures TrimRight(s + b) == s
    decreases |b|
  {
    if b == [] {
      assert s + b == s;
    } else {
      var t := s + b;
      assert t[|t| - 1] == b[|b| - 1] && t[..|t| - 1] == s + b[..|b| - 1];
      TrimRightBlank(s, b[..|b| - 1]);
    }
  }

  lemma {:induction false} TrimAllBlank(a: string)
    requires Blank(a)
    ensures TrimLeft(a) == []
    decreases |a|
  {
    if a != [] { TrimAllBlank(a[1..]); }
  }

  lemma TrimsToName(item: Item)
    requires Written(item)
    ensures Trim(Text(item)) == item.name
  {
    if item.name == [] {
      TrimAllBlank(Text(item));
    } else {
      assert Text(item) == item.before + (item.name + item.after);
      TrimLeftBlank(item.before, item.name + item.after);
      TrimRightBlank(item.name, item.after);
    }
  }

  // Nothing written into an item can be mistaken for structure.
  lemma TextIsPlain(item: Item)
    requires Written(item)
    ensures forall i :: 0 <= i < |Text(item)| ==> Text(item)[i] != ',' && Text(item)[i] != '[' && Text(item)[i] != ']'
  {
    forall i | 0 <= i < |Text(item)|
      ensures Text(item)[i] != ',' && Text(item)[i] != '[' && Text(item)[i] != ']'
    {
      var a, n := |item.before|, |item.name|;
      if i < a {
        assert Text(item)[i] == item.before[i];
      } else if i < a + n {
        assert Text(item)[i] == item.name[i - a];
      } else {
        assert Text(item)[i] == item.after[i - a - n];
      }
    }
  }

  predicate AllWritten(items: seq<Item>) {
    forall i :: 0 <= i < |items| ==> Written(items[i])
  }

  lemma ItemsOne(t: string)
    requires t != [] && forall i :: 0 <= i < |t| ==> t[i] != ','
    ensures Items(t) == [t]
  {
    FindIs(t, ',', |t|);
    assert t[..|t|] == t;
  }

  lemma ItemsMore(t: string, rest: string)
    requires forall i :: 0 <= i < |t| ==> t[i] != ','
    ensures Items(t + "," + rest) == [t] + Items(rest)
  {
    var all := t + "," + rest;
    assert all[|t|] == ',' && all[|t| + 1..] == rest && all[..|t|] == t;
    FindIs(all, ',', |t|);
  }

  lemma AcceptedMore(t: string, items: seq<string>)
    ensures Accepted([t] + items) == (if ValidLibName(Trim(t)) then [Trim(t)] else []) + Accepted(items)
  {
    assert ([t] + items)[1..] == items;
  }

  lemma ReadLast(item: Item)
    requires Written(item)
    ensures Accepted(Items(Text(item))) == if ValidLibName(item.name) then [item.name] else []
  {
    TextIsPlain(item);
    TrimsToName(item);
    if Text(item) != [] {
      ItemsOne(Text(item));
      AcceptedMore(Text(item), []);
      assert [Text(item)] + [] == [Text(item)];
    }
  }

  lemma ReadMore(item: Item, rest: string)
    requires Written(item)
    ensures Accepted(Items(Text(item) + "," + rest)) == (if ValidLibName(item.name) then [item.name] else []) + Accepted(Items(rest))
  {
    TextIsPlain(item);
    TrimsToName(item);
    ItemsMore(Text(item), rest);
    AcceptedMore(Text(item), Items(rest));
  }

  lemma {:induction false} ItemsReadBack(items: seq<Item>)
    requires AllWritten(items)
    ensures Accepted(Items(Join(items))) == Names(items)
    decreases |items|
  {
    if |items| == 1 {
      ReadLast(items[0]);
      assert items[1..] == [];
    } else if |items| > 1 {
      ReadMore(items[0], Join(items[1..]));
      ItemsReadBack(items[1..]);
    }
  }

  lemma {:induction false} JoinHasNoBrackets(items: seq<Item>)
    requires AllWritten(items)
    ensures NoBrackets(Join(items))
    decreases |items|
  {
    if items != [] {
      TextIsPlain(items[0]);
      JoinHasNoBrackets(items[1..]);
    }
  }

  lemma {:induction false} FindIs(s: string, c: char, k: nat)
    requires k <= |s| && (k < |s| ==> s[k] == c) && forall i :: 0 <= i < k ==> s[i] != c
    ensures Find(s, c) == k
  {
    assert Find(s, c) == |s| || s[Find(s, c)] == c;
  }

  lemma FindLastIs(s: string, c: char, k: nat)
    requires k <= |s| && (k > 0 ==> s[k - 1] == c) && forall i :: k <= i < |s| ==> s[i] != c
    ensures FindLast(s, c) == k
  {
    assert FindLast(s, c) == 0 || s[FindLast(s, c) - 1] == c;
  }

  lemma BracketPositions(head: string, body: string, tail: string)
    requires NoBrackets(head) && NoBrackets(body) && NoBrackets(tail)
    ensures var content := head + "[" + body + "]" + tail;
            var a, b := |head|, |head| + 1 + |body|;
            && content[a] == '[' && content[b] == ']' && content[a + 1..b] == body
            && forall i :: 0 <= i < |content| && i != a && i != b ==> content[i] != '[' && content[i] != ']'
  {
    var content := head + "[" + body + "]" + tail;
    var a, b := |head|, |head| + 1 + |body|;
    forall i | 0 <= i < |content| && i != a && i != b
      ensures content[i] != '[' && content[i] != ']'
    {
      assert content[i] == if i < a then head[i] else if i < b then body[i - a - 1] else tail[i - b - 1];
    }
  }

  /** Reading back a bracketed list of names, with any blanks and quotes around each name and any
      bracket-free text around the list, returns the valid ones in order (all, if all are valid). */
  lemma GreylistRoundTrip(head: string, items: seq<Item>, tail: string)
    requires NoBrackets(head) && NoBrackets(tail) && AllWritten(items)
    ensures Parse(head + "[" + Join(items) + "]" + tail) == Names(items)
  {
    var body := Join(items);
    var content := head + "[" + body + "]" + tail;
    ItemsReadBack(items);
    JoinHasNoBrackets(items);
    BracketPositions(head, body, tail);
    ParseBetween(content, |head|, |head| + 1 + |body|, body);
  }

  /** Anything else than one list is refused: a name is read only from between the one '[' and the one
      ']' behind it. */
  lemma ParseNeedsOneList(content: string)
    requires Parse(content) != []
    ensures exists a, b :: 0 <= a < b < |content| && content[a] == '[' && content[b] == ']'
              && (forall i :: 0 <= i < |content| && i != a && i != b ==> content[i] != '[' && content[i] != ']')
              && Parse(content) == NamesIn(content[a + 1..b])
  {
    ParseCases(content);
    var a, b := Find(content, '['), FindLast(content, ']') - 1;
    assert forall i :: 0 <= i < |content| && i != a ==> content[i] != '[';
    assert forall i :: 0 <= i < |content| && i != b ==> content[i] != ']';
    assert Parse(content) == NamesIn(content[a + 1..b]);
  }

  lemma ParseBetween(content: string, a: nat, b: nat, body: string)
    requires a < b < |content| && content[a] == '[' && content[b] == ']' && content[a + 1..b] == body
    requires forall i :: 0 <= i < |content| && i != a && i != b ==> content[i] != '[' && content[i] != ']'
    ensures Parse(content) == NamesIn(body)
  {
    BracketsFound(content, a, b);
    ParseCases(content);
  }

  lemma BracketsFound(content: string, a: nat, b: nat)
    requires a < b < |content| && content[a] == '[' && content[b] == ']'
    requires forall i :: 0 <= i < |content| && i != a && i != b ==> content[i] != '[' && content[i] != ']'
    ensures ArrayContent(content) == Some(content[a + 1..b])
  {
    FindIs(content, '[', a);
    FindLastIs(content, '[', a + 1);
    FindIs(content, ']', b);
    FindLastIs(content, ']', b + 1);
  }

  // ---------------------------------------------------------------- the buffer

  // What sprintf_s writes for each name, one after the other.
  function Listing(names: seq<string>): string {
    if names == [] then [] else names[0] + ":" + Listing(names[1..])
  }

  function ListingLength(names: seq<string>): nat {
    if names == [] then 0 else |names[0]| + 1 + ListingLength(names[1..])
  }

  lemma {:induction false} ListingAppend(a: seq<string>, b: seq<string>)
    ensures Listing(a + b) == Listing(a) + Listing(b)
    ensures ListingLength(a + b) == ListingLength(a) + ListingLength(b)
    ensures |Listing(a)| == ListingLength(a)
    decreases |a|
  {
    if a == [] {
      assert a + b == b;
    } else {
      assert (a + b)[0] == a[0] && (a + b)[1..] == a[1..] + b;
      ListingAppend(a[1..], b);
    }
  }

  // Splitting at the colons, each of which ends a name.
  function SplitColons(s: string): seq<string>
    decreases |s|
  {
    var k := Find(s, ':');
    if k == |s| then [] else [s[..k]] + SplitColons(s[k + 1..])
  }

  lemma SplitFirst(name: string, rest: string)
    requires ':' !in name
    ensures SplitColons(name + ":" + rest) == [name] + SplitColons(rest)
  {
    var s := name + ":" + rest;
    assert forall i :: 0 <= i < |name| ==> s[i] == name[i];
    assert s[|name|] == ':' && s[..|name|] == name && s[|name| + 1..] == rest;
    FindIs(s, ':', |name|);
  }

  lemma {:induction false} ListingSplits(names: seq<string>)
    requires NoColons(names)
    ensures SplitColons(Listing(names)) == names
    decreases |names|
  {
    if names != [] {
      SplitFirst(names[0], Listing(names[1..]));
      ListingSplits(names[1..]);
    } else {
      FindIs(Listing(names), ':', 0);
    }
  }

  lemma ValidNameHasNoColon(name: string)
    requires ValidLibName(name)
    ensures ':' !in name && '\0' !in name
  {
    assert forall i :: 0 <= i < |name| ==> NameChar(name[i]);
  }

  /** sprintf_s("%s:") at `cursor`: the name, a colon and a terminating NUL, or nothing if they do
      not fit. */
  method PrintName(buffer: array<char>, cursor: nat, name: string) returns (ok: bool)
    requires cursor <= buffer.Length && '\0' !in name
    modifies buffer
    ensures ok == (|name| + 2 <= buffer.Length - cursor)
    ensures ok ==> buffer[..cursor + |name| + 1] == old(buffer[..cursor]) + name + ":"
  {
    ok := |name| + 2 <= buffer.Length - cursor;
    if !ok {
      return;
    }
    for i := 0 to |name|
      invariant buffer[..cursor] == old(buffer[..cursor])
      invariant buffer[cursor..cursor + i] == name[..i]
    {
      buffer[cursor + i] := name[i];
      assert buffer[cursor..cursor + i + 1] == buffer[cursor..cursor + i] + [name[i]];
    }
    buffer[cursor + |name|] := ':';
    buffer[cursor + |name| + 1] := '\0';
    assert buffer[..cursor + |name| + 1] == buffer[..cursor] + buffer[cursor..cursor + |name|] + [buffer[cursor + |name|]];
  }

  // One of the two filling loops.
  method PrintNames(buffer: array<char>, start: nat, names: seq<string>) returns (ok: bool, cursor: nat)
    requires start + ListingLength(names) < buffer.Length && NoNuls(names)
    modifies buffer
    ensures ok && cursor == start + ListingLength(names)
    ensures buffer[..cursor] == old(buffer[..start]) + Listing(names)
  {
    ok, cursor := true, start;
    for i := 0 to |names|
      invariant ok && cursor == start + ListingLength(names[..i]) && cursor <= buffer.Length
      invariant buffer[..cursor] == old(buffer[..start]) + Listing(names[..i])
    {
      OneMore(names, i);
      ok := PrintName(buffer, cursor, names[i]);
      if !ok {
        return;
      }
      cursor := cursor + |names[i]| + 1;
    }
    assert names[..|names|] == names;
  }

  lemma OneMore(names: seq<string>, i: nat)
    requires i < |names|
    ensures Listing(names[..i + 1]) == Listing(names[..i]) + names[i] + ":"
    ensures ListingLength(names[..i + 1]) == ListingLength(names[..i]) + |names[i]| + 1 <= ListingLength(names)
  {
    assert names[..i + 1] == names[..i] + [names[i]] && names == names[..i + 1] + names[i + 1..];
    var one := [names[i]];
    assert one[1..] == [];
    ListingAppend(names[..i], one);
    ListingAppend(names[..i + 1], names[i + 1..]);
  }

  // One of the two counting loops.
  method AddLengths(start: nat, names: seq<string>) returns (length: nat)
    ensures length == start + ListingLength(names)
  {
    length := start;
    for i := 0 to |names|
      invariant length == start + ListingLength(names[..i])
    {
      OneMore(names, i);
      length := length + |names[i]| + 1;
    }
    assert names[..|names|] == names;
  }

  predicate NoColons(names: seq<string>) {
    forall i :: 0 <= i < |names| ==> ':' !in names[i]
  }

  // "%s" would stop at a NUL inside a name.
  predicate NoNuls(names: seq<string>) {
    forall i :: 0 <= i < |names| ==> '\0' !in names[i]
  }

  /** The two-pass fill never runs out of the length it computed, ends with the cursor on the last
      byte, and the string it leaves splits at the colons into the allow list, then the greylist. */
  method FillSonames(allowList: seq<string>, greylistLibs: seq<string>) returns (ok: bool, sonames: array<char>)
    requires NoColons(allowList) && NoColons(greylistLibs) && NoNuls(allowList) && NoNuls(greylistLibs)
    ensures ok && fresh(sonames)
    ensures sonames.Length == ListingLength(allowList) + ListingLength(greylistLibs) + 1
    ensures sonames[sonames.Length - 1] == '\0'
    ensures SplitColons(sonames[..sonames.Length - 1]) == allowList + greylistLibs
  {
    var length := AddLengths(1, allowList);
    length := AddLengths(length, greylistLibs);
    sonames := new char[length];
    var cursor;
    ok, cursor := PrintBoth(sonames, allowList, greylistLibs);
    if !ok {
      return;
    }
    sonames[cursor] := '\0';
    TwoListingsSplit(allowList, greylistLibs);
  }

  method PrintBoth(buffer: array<char>, allowList: seq<string>, greylistLibs: seq<string>) returns (ok: bool, cursor: nat)
    requires ListingLength(allowList) + ListingLength(greylistLibs) < buffer.Length
    requires NoNuls(allowList) && NoNuls(greylistLibs)
    modifies buffer
    ensures ok && cursor == ListingLength(allowList) + ListingLength(greylistLibs)
    ensures buffer[..cursor] == Listing(allowList) + Listing(greylistLibs)
  {
    ok, cursor := PrintNames(buffer, 0, allowList);
    if !ok {
      return;
    }
    assert buffer[..cursor] == Listing(allowList);
    ok, cursor := PrintNames(buffer, cursor, greylistLibs);
  }

  lemma TwoListingsSplit(a: seq<string>, b: seq<string>)
    requires NoColons(a) && NoColons(b)
    ensures SplitColons(Listing(a) + Listing(b)) == a + b
  {
    ListingAppend(a, b);
    ListingSplits(a + b);
  }

  // ---------------------------------------------------------------- the allow list

  const BIONIC_LIBRARY: seq<string> := [
    "libc.so", "libdl.so", "libm.so", "libz.so", "libclang_rt.asan.so", "libclang_rt.tsan.so",
    "libclang_rt.ubsan_standalone.so", "libclang_rt.ubsan_minimal.so", "libclang_rt.hwasan.so"]
  const Z_LIBRARY_NDK: seq<string> := [
    "libace_napi.z.so", "libace_ndk.z.so", "libcj_environment.z.so", "libbundle_ndk.z.so",
    "libdeviceinfo_ndk.z.so", "libEGL.so", "libGLESv3.so", "libhiappevent_ndk.z.so", "libhuks_ndk.z.so",
    "libhukssdk.z.so"]
  const Z_LIBRARY_GRAPHICS: seq<string> := [
    "libnative_drawing.so", "libnative_window.so", "libnative_buffer.so", "libnative_vsync.so",
    "libOpenSLES.so", "libpixelmap_ndk.z.so", "libimage_ndk.z.so", "libimage_receiver_ndk.z.so",
    "libimage_source_ndk.z.so", "librawfile.z.so", "libuv.so", "libhilog.so", "libnative_image.so"]
  const Z_LIBRARY_MEDIA: seq<string> := [
    "libnative_media_adec.so", "libnative_media_aenc.so", "libnative_media_codecbase.so",
    "libnative_media_core.so", "libnative_media_vdec.so", "libnative_media_venc.so",
    "libnative_media_avmuxer.so", "libnative_media_avdemuxer.so", "libnative_media_avsource.so",
    "libnative_avscreen_capture.so", "libavplayer.so", "libavrecorder.so"]
  const ADAPTOR_LIBRARY: seq<string> := [
    "libohosadaptor.so", "libusb_ndk.z.so", "libvulkan.so", "libOpenCL.so"]
  const ALLOW_LIST := BIONIC_LIBRARY + Z_LIBRARY_NDK + Z_LIBRARY_GRAPHICS + Z_LIBRARY_MEDIA + ADAPTOR_LIBRARY

  lemma BionicLibraryPlain()
    ensures Plain(BIONIC_LIBRARY)
  {
  }

  lemma ZLibraryNdkPlain()
    ensures Plain(Z_LIBRARY_NDK)
  {
  }

  lemma ZLibraryGraphicsPlain()
    ensures Plain(Z_LIBRARY_GRAPHICS)
  {
  }

  lemma ZLibraryMediaPlain()
    ensures Plain(Z_LIBRARY_MEDIA)
  {
  }

  lemma AdaptorLibraryPlain()
    ensures Plain(ADAPTOR_LIBRARY)
  {
  }

  predicate Plain(names: seq<string>) {
    forall i :: 0 <= i < |names| ==> forall c :: c in names[i] ==> c != ':' && c != '\0'
  }

  lemma AllowListPlain()
    ensures NoColons(ALLOW_LIST) && NoNuls(ALLOW_LIST)
  {
    BionicLibraryPlain();
    ZLibraryNdkPlain();
    ZLibraryGraphicsPlain();
    ZLibraryMediaPlain();
    AdaptorLibraryPlain();
  }

  lemma AllowListEnds()
    ensures |ALLOW_LIST| == 48 && ALLOW_LIST[0] == "libc.so" && ALLOW_LIST[47] == "libOpenCL.so"
  {
  }

  /** ... for the built-in allow list and the greylist read from the configuration, whatever the file
      contains. */
  method CreateSharedLibsSonames(content: string) returns (ok: bool, sonames: array<char>)
    ensures ok && fresh(sonames) && sonames.Length > 0 && sonames[sonames.Length - 1] == '\0'
    ensures SplitColons(sonames[..sonames.Length - 1]) == ALLOW_LIST + Parse(content)
  {
    var found, greylistLibs := LoadGreylistConfig(content);
    ParsedHaveNoColons(content);
    AllowListPlain();
    ok, sonames := FillSonames(ALLOW_LIST, greylistLibs);
  }

  lemma ParsedHaveNoColons(content: string)
    ensures NoColons(Parse(content)) && NoNuls(Parse(content))
  {
    var names := Parse(content);
    forall i | 0 <= i < |names| ensures ':' !in names[i] && '\0' !in names[i] { ValidNameHasNoColon(names[i]); }
  }
}
