/** The scanner of a DLL override list such as "d3d12,dxgi=n;d3d11 = native".  It works in place,
    on the string and pairs of positions; here it is compared with splitting the list apart. */
module OverrideList {
  import opened Basics

  // ------------------------------------------------------------- characters and trimming

  predicate IsSpace(c: char) { c in {' ', '\t', '\n', '\r', '\U{0B}', '\U{0C}'} }

  /** A blank, or one of the five control characters from tab to carriage return. */
  predicate Blank(c: char) { c as int == 32 || 9 <= c as int <= 13 }

  lemma SpaceIsBlank()
    ensures forall c :: IsSpace(c) <==> Blank(c)
  {
  }

  function TrimLeft(s: string): string {
    if s != [] && IsSpace(s[0]) then TrimLeft(s[1..]) else s
  }

  function TrimRight(s: string): string {
    if s != [] && IsSpace(s[|s| - 1]) then TrimRight(s[..|s| - 1]) else s
  }

  function Trim(s: string): string { TrimRight(TrimLeft(s)) }

  /** What trimming is: the text without any space around it, and nothing but space was cut. */
  lemma TrimMeaning(s: string) returns (before: string, after: string)
    ensures s == before + Trim(s) + after
    ensures forall c :: c in before || c in after ==> Blank(c)
    ensures Trim(s) != [] ==> !Blank(Trim(s)[0]) && !Blank(Trim(s)[|Trim(s)| - 1])
  {
    SpaceIsBlank();
    hide IsSpace, Blank;
    before := LeftCut(s);
    after := RightCut(TrimLeft(s));
    assert s == before + (Trim(s) + after);
    if Trim(s) != [] {
      assert TrimLeft(s)[0] == (Trim(s) + after)[0];
    }
  }

  lemma {:induction false} LeftCut(s: string) returns (cut: string)
    ensures s == cut + TrimLeft(s) && forall c :: c in cut ==> IsSpace(c)
    ensures TrimLeft(s) != [] ==> !IsSpace(TrimLeft(s)[0])
  {
    if s != [] && IsSpace(s[0]) {
      cut := LeftCut(s[1..]);
      cut := [s[0]] + cut;
    } else {
      cut := [];
    }
  }

  lemma {:induction false} RightCut(s: string) returns (cut: string)
    ensures s == TrimRight(s) + cut && forall c :: c in cut ==> IsSpace(c)
    ensures TrimRight(s) != [] ==> !IsSpace(TrimRight(s)[|TrimRight(s)| - 1])
  {
    if s != [] && IsSpace(s[|s| - 1]) {
      cut := RightCut(s[..|s| - 1]);
      assert s == s[..|s| - 1] + [s[|s| - 1]];
      cut := cut + [s[|s| - 1]];
    } else {
      cut := [];
    }
  }

  /** A piece of the list is a word if it is that word after trimming, whatever its case. */
  predicate Is(piece: string, word: string) { SameText(Trim(piece), word) }

  // ------------------------------------------------------------- splitting

  function Find(s: string, c: char): (k: nat)
    ensures k <= |s| && (forall i :: 0 <= i < k ==> s[i] != c) && (k < |s| ==> s[k] == c)
  {
    if s == [] || s[0] == c then 0 else 1 + Find(s[1..], c)
  }

  function Split(s: string, c: char): (parts: seq<string>)
    ensures |parts| >= 1
    decreases |s|
  {
    var k := Find(s, c);
    if k == |s| then [s] else [s[..k]] + Split(s[k + 1..], c)
  }

  function Join(parts: seq<string>, c: char): string
    requires |parts| >= 1
  {
    if |parts| == 1 then parts[0] else parts[0] + [c] + Join(parts[1..], c)
  }

  /** Splitting is undone by joining, and leaves no separator in a part: there is only one such way. */
  lemma {:induction false} SplitMeaning(s: string, c: char)
    ensures Join(Split(s, c), c) == s
    ensures forall part :: part in Split(s, c) ==> c !in part
    decreases |s|
  {
    var k := Find(s, c);
    if k < |s| {
      SplitMeaning(s[k + 1..], c);
      assert s == s[..k] + [c] + s[k + 1..];
    }
  }

  // ------------------------------------------------------------- the list, split apart

  /** An entry names a DLL if one of the words before its first '=' is that DLL. */
  predicate Names(entry: string, dll: string) {
    var k := Find(entry, '=');
    k < |entry| && Lists(entry[..k], dll)
  }

  predicate Lists(words: string, dll: string) {
    exists word :: word in Split(words, ',') && Is(word, dll)
  }

  /** The text behind the first '=' is one of the two modes. */
  predicate HasMode(entry: string, short: string, long: string)
    requires Find(entry, '=') < |entry|
  {
    var value := entry[Find(entry, '=') + 1..];
    Is(value, short) || Is(value, long)
  }

  /** Some entry names the DLL, and every entry that does has the mode. */
  predicate Overrides(list: string, dll: string, short: string, long: string) {
    && (exists entry :: entry in Split(list, ';') && Names(entry, dll))
    && forall entry :: entry in Split(list, ';') && Names(entry, dll) ==> HasMode(entry, short, long)
  }

  // ------------------------------------------------------------- the scanner

  /** Move both ends of a range inwards over space. */
  method TrimRange(s: string, begin: nat, end: nat) returns (from: nat, length: nat)
    requires begin <= end <= |s|
    ensures from + length <= |s| && s[from..from + length] == Trim(s[begin..end])
  {
    hide IsSpace;
    from, length := begin, end - begin;
    while length > 0 && IsSpace(s[from])
      invariant from + length == end && begin <= from
      invariant TrimLeft(s[from..end]) == TrimLeft(s[begin..end])
    {
      assert s[from..end][1..] == s[from + 1..end];
      from, length := from + 1, length - 1;
    }
    assert TrimLeft(s[begin..end]) == s[from..end];
    while length > 0 && IsSpace(s[from + length - 1])
      invariant from + length <= end
      invariant TrimRight(s[from..from + length]) == Trim(s[begin..end])
    {
      assert s[from..from + length][..length - 1] == s[from..from + length - 1];
      length := length - 1;
    }
  }

  /** Compare the range from `begin` to `end` with a word. */
  method EqualRange(s: string, begin: nat, end: nat, expected: string) returns (equal: bool)
    requires begin <= end <= |s|
    ensures equal <==> Is(s[begin..end], expected)
    ensures equal <==>
      && |Trim(s[begin..end])| == |expected|
      && forall i :: 0 <= i < |expected| ==> SameLetter(Trim(s[begin..end])[i], expected[i])
  {
    hide Trim, ToLower, SameLetter;
    var from, length := TrimRange(s, begin, end);
    if length != |expected| {
      return false;
    }
    ghost var word := s[from..from + length];
    for i := 0 to length
      invariant forall k :: 0 <= k < i ==> SameLetter(word[k], expected[k])
    {
      LowerIdentifies(s[from + i], expected[i]);
      if ToLower(s[from + i]) != ToLower(expected[i]) {
        return false;
      }
    }
    return true;
  }

  /** Whether one of the words between `begin` and `end` is the DLL. */
  method ListContains(s: string, begin: nat, end: nat, dll: string) returns (found: bool)
    requires begin <= end <= |s| && dll != ""
    ensures found <==> Lists(s[begin..end], dll)
  {
    hide Is, Find, Split, Lists;
    EmptyIsNoWord(dll);
    var item := begin;
    while item < end
      invariant begin <= item <= end
      invariant Lists(s[begin..end], dll) <==> Lists(s[item..end], dll)
      decreases end - item
    {
      var itemEnd := item;
      while itemEnd < end && s[itemEnd] != ','
        invariant item <= itemEnd <= end
        invariant forall k :: item <= k < itemEnd ==> s[k] != ','
      {
        itemEnd := itemEnd + 1;
      }
      WordAt(s, item, itemEnd, end, dll);
      var equal := EqualRange(s, item, itemEnd, dll);
      if equal {
        return true;
      }
      item := if itemEnd < end then itemEnd + 1 else end;
    }
    assert s[end..end] == "";
    return false;
  }

  lemma WordAt(s: string, item: nat, itemEnd: nat, end: nat, dll: string)
    requires item <= itemEnd <= end <= |s| && dll != ""
    requires (forall k :: item <= k < itemEnd ==> s[k] != ',') && (itemEnd < end ==> s[itemEnd] == ',')
    ensures Lists(s[item..end], dll) <==>
      Is(s[item..itemEnd], dll) || Lists(s[(if itemEnd < end then itemEnd + 1 else end)..end], dll)
  {
    hide Is, Split, Lists;
    var words := s[item..end];
    FoundAt(words, ',', itemEnd - item);
    assert words[..itemEnd - item] == s[item..itemEnd];
    FirstWord(words, dll);
    EmptyIsNoWord(dll);
    if itemEnd < end {
      assert words[itemEnd - item + 1..] == s[itemEnd + 1..end];
    } else {
      assert s[end..end] == "";
    }
  }

  lemma FoundAt(s: string, c: char, k: nat)
    requires k <= |s| && (forall i :: 0 <= i < k ==> s[i] != c) && (k < |s| ==> s[k] == c)
    ensures Find(s, c) == k
  {
  }

  lemma EmptyIsNoWord(dll: string)
    requires dll != ""
    ensures !Is("", dll) && !Lists("", dll)
  {
    assert |Trim("")| == 0;
    assert Split("", ',') == [""];
  }

  /** A list names a DLL in its first word or in the words behind it. */
  lemma FirstWord(words: string, dll: string)
    ensures var k := Find(words, ',');
            Lists(words, dll) <==> Is(words[..k], dll) || (k < |words| && Lists(words[k + 1..], dll))
  {
    hide Is, Find, Split;
    SplitParts(words, ',');
  }

  lemma SplitParts(s: string, c: char)
    ensures var k := Find(s, c);
            forall part :: part in Split(s, c) <==> part == s[..k] || (k < |s| && part in Split(s[k + 1..], c))
  {
    if Find(s, c) == |s| {
      assert s[..|s|] == s;
    }
  }

  /** What is still to be decided about the entries of a list. */
  predicate Pending(list: string, dll: string, short: string, long: string, found: bool) {
    && (found || exists entry :: entry in Split(list, ';') && Names(entry, dll))
    && forall entry :: entry in Split(list, ';') && Names(entry, dll) ==> HasMode(entry, short, long)
  }

  lemma FirstEntry(list: string, dll: string, short: string, long: string, found: bool)
    ensures var k := Find(list, ';');
            var named := Names(list[..k], dll);
            && (named && !HasMode(list[..k], short, long) ==> !Pending(list, dll, short, long, found))
            && (!(named && !HasMode(list[..k], short, long)) ==>
                  (Pending(list, dll, short, long, found) <==>
                   if k < |list| then Pending(list[k + 1..], dll, short, long, found || named) else found || named))
  {
    hide Names, Find, Split;
    SplitParts(list, ';');
    assert list[..Find(list, ';')] in Split(list, ';');
  }

  lemma NothingPending(dll: string, short: string, long: string, found: bool)
    ensures Pending("", dll, short, long, found) <==> found
  {
    assert Split("", ';') == [""];
    assert !Names("", dll);
  }

  datatype Pointer = Null | Text(s: string)

  predicate Present(p: Pointer) { p.Text? && p.s != "" }

  /** The scanner agrees with the list split apart, on every string. */
  method HasExactMode(list: Pointer, dll: Pointer, short: string, long: string) returns (r: bool)
    ensures r <==> Present(list) && Present(dll) && Overrides(list.s, dll.s, short, long)
  {
    hide Pending, Names, HasMode, Find, Overrides;
    if !Present(list) || !Present(dll) {
      return false;
    }
    var s := list.s;
    var found := false;
    var entry := 0;
    assert s[0..] == s;
    DecideSplit(s, dll.s, short, long);
    while entry < |s|
      invariant 0 <= entry <= |s|
      invariant Pending(s, dll.s, short, long, false) <==> Pending(s[entry..], dll.s, short, long, found)
      decreases |s| - entry
    {
      var entryEnd := entry + Find(s[entry..], ';');
      NextEntry(s, entry, dll.s, short, long, found);
      var named, good := ReadEntry(s, entry, entryEnd, dll.s, short, long);
      if named {
        if !good {
          return false;
        }
        found := true;
      }
      entry := if entryEnd < |s| then entryEnd + 1 else entryEnd;
    }
    assert s[entry..] == "";
    NothingPending(dll.s, short, long, found);
    return found;
  }

  /** Whether an entry names the DLL and, if so, has one of the modes. */
  method ReadEntry(s: string, entry: nat, entryEnd: nat, dll: string, short: string, long: string)
    returns (named: bool, good: bool)
    requires entry <= entryEnd <= |s| && dll != ""
    ensures named <==> Names(s[entry..entryEnd], dll)
    ensures named ==> (good <==> HasMode(s[entry..entryEnd], short, long))
  {
    hide Lists, Is, Find;
    ghost var text := s[entry..entryEnd];
    var equals := Find(s[entry..entryEnd], '=');
    named, good := false, false;
    if equals < entryEnd - entry {
      assert text[..equals] == s[entry..entry + equals];
      named := ListContains(s, entry, entry + equals, dll);
      if named {
        assert text[equals + 1..] == s[entry + equals + 1..entryEnd];
        var isShort := EqualRange(s, entry + equals + 1, entryEnd, short);
        var isLong := EqualRange(s, entry + equals + 1, entryEnd, long);
        good := isShort || isLong;
      }
    }
  }

  /** One entry is decided, and the rest of the list is what follows its separator. */
  lemma NextEntry(s: string, entry: nat, dll: string, short: string, long: string, found: bool)
    requires entry < |s|
    ensures var end := entry + Find(s[entry..], ';');
            var next := if end < |s| then end + 1 else end;
            var named := Names(s[entry..end], dll);
            && (named && !HasMode(s[entry..end], short, long) ==> !Pending(s[entry..], dll, short, long, found))
            && (!(named && !HasMode(s[entry..end], short, long)) ==>
                  (Pending(s[entry..], dll, short, long, found) <==>
                   Pending(s[next..], dll, short, long, found || named)))
  {
    hide Pending, HasMode, Names;
    var rest := s[entry..];
    var k := Find(rest, ';');
    assert rest[..k] == s[entry..entry + k];
    FirstEntry(rest, dll, short, long, found);
    NamesFirst(rest[..k], dll);
    if k < |rest| {
      assert rest[k + 1..] == s[entry + k + 1..];
    } else {
      assert s[entry + k..] == "";
      NothingPending(dll, short, long, found || Names(rest[..k], dll));
    }
  }

  lemma NamesFirst(text: string, dll: string)
    ensures Names(text, dll) ==> Find(text, '=') < |text|
  {
  }

  lemma DecideSplit(list: string, dll: string, short: string, long: string)
    ensures Pending(list, dll, short, long, false) <==> Overrides(list, dll, short, long)
  {
  }
}
