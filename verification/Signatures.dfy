/** Reading a shader signature: the parameters of up to four streams are cut apart in one pass, and
    lookups by name are filtered by the sum of the name's characters. */
module Signatures {
  import opened Basics

  const STREAMS := 4
  const RECORD := 40    // bytes of a parameter in memory, with 64-bit pointers
  const CHAR_SUM := 4   // bytes of a name's sum

  datatype Name = Terminated(text: string) | Unterminated

  datatype Parameter = Parameter(stream: nat, register: nat, name: Name, index: nat)

  // ------------------------------------------------------------- what the pass computes

  /** Where a run of stream `s` from `from` on ends. */
  function RunEnd(ps: seq<Parameter>, from: nat, s: nat): (end: nat)
    requires from <= |ps|
    ensures from <= end <= |ps|
    ensures forall k :: from <= k < end ==> ps[k].stream == s
    ensures end < |ps| ==> ps[end].stream != s
    decreases |ps| - from
  {
    if from < |ps| && ps[from].stream == s then RunEnd(ps, from + 1, s) else from
  }

  /** Where stream `s` starts. */
  function CutAt(ps: seq<Parameter>, s: nat): (at: nat)
    ensures at <= |ps|
  {
    if s == 0 then 0 else RunEnd(ps, CutAt(ps, s - 1), s - 1)
  }

  function Slice(ps: seq<Parameter>, s: nat): seq<Parameter> {
    ps[CutAt(ps, s)..RunEnd(ps, CutAt(ps, s), s)]
  }

  /** The registers of a stream do not decrease, and its names end within the blob. */
  predicate Proper(ps: seq<Parameter>) {
    && (forall k :: 0 <= k < |ps| ==> ps[k].name.Terminated?)
    && forall k :: 0 < k < |ps| ==> ps[k - 1].register <= ps[k].register
  }

  /** A name that the counting pass never looks at, behind the last stream's run, runs out of the blob. */
  predicate UncheckedName(ps: seq<Parameter>) {
    && (forall s :: 0 <= s < STREAMS ==> Proper(Slice(ps, s)))
    && exists k :: CutAt(ps, STREAMS) <= k < |ps| && ps[k].name.Unterminated?
  }

  // ------------------------------------------------------------- the memory for it

  /** The bytes of a name with its terminator; none for one that is not copied. */
  function NameBytes(p: Parameter): nat { if p.name.Terminated? then |p.name.text| + 1 else 0 }

  function NamesBytes(ps: seq<Parameter>): nat {
    if ps == [] then 0 else NamesBytes(ps[..|ps| - 1]) + NameBytes(ps[|ps| - 1])
  }

  /** The bytes allocated: all records and sums, and the names that the counting pass has seen, or
      none of them if names stay where they are.  Computed in 32 bits. */
  function Allocated(ps: seq<Parameter>, byReference: bool): nat {
    ((RECORD + CHAR_SUM) * |ps| + if byReference then 0 else NamesBytes(ps[..CutAt(ps, STREAMS)])) % WORD
  }

  /** The bytes written: all records and sums, and all names. */
  function Written(ps: seq<Parameter>, byReference: bool): nat {
    (RECORD + CHAR_SUM) * |ps| + if byReference then 0 else NamesBytes(ps)
  }

  lemma {:induction false} NamesAdd(a: seq<Parameter>, b: seq<Parameter>)
    ensures NamesBytes(a + b) == NamesBytes(a) + NamesBytes(b)
    decreases |b|
  {
    if b == [] {
      assert a + b == a;
    } else {
      assert (a + b)[..|a + b| - 1] == a + b[..|b| - 1];
      NamesAdd(a, b[..|b| - 1]);
    }
  }

  /** A parameter takes 40 bytes and its sum four, and a copied name its characters and a zero. */
  lemma BytesOfOne(p: Parameter)
    ensures Written([p], true) == 44
    ensures p.name.Terminated? ==> Written([p], false) == 45 + |p.name.text|
    ensures Allocated([p], true) == 44
  {
    assert [p][..0] == [];
    assert NamesBytes([]) == 0;
  }

  /** What is written fits what is allocated exactly if it is less than 2^32 bytes and, when names are
      copied, the streams do not decrease: then the counting pass sees every name. */
  lemma WrittenFits(ps: seq<Parameter>, byReference: bool)
    requires forall k :: 0 <= k < |ps| ==> ps[k].name.Terminated?
    ensures Written(ps, byReference) <= Allocated(ps, byReference)
        <==> Written(ps, byReference) < WORD && (byReference || Ordered(ps))
  {
    hide CutAt, Ordered;
    var cut := CutAt(ps, STREAMS);
    assert ps[..cut] + ps[cut..] == ps;
    NamesAdd(ps[..cut], ps[cut..]);
    CutIsAll(ps);
    if cut < |ps| {
      NamesTake(ps[cut..]);
    }
    WrapsBelow((RECORD + CHAR_SUM) * |ps| + if byReference then 0 else NamesBytes(ps[..cut]));
  }

  lemma WrapsBelow(n: nat)
    ensures n % WORD <= n && (n % WORD == n <==> n < WORD)
  {
  }

  lemma CutIsAll(ps: seq<Parameter>)
    ensures CutAt(ps, STREAMS) == |ps| <==> Ordered(ps)
  {
    CutsOrder(ps, STREAMS);
    if Ordered(ps) {
      OrderedCuts(ps, STREAMS);
    }
  }

  lemma NamesTake(ps: seq<Parameter>)
    requires ps != [] && ps[|ps| - 1].name.Terminated?
    ensures NamesBytes(ps) > 0
  {
  }

  // ------------------------------------------------------------- what it means

  /** Non-decreasing streams, all of them existing ones. */
  predicate Ordered(ps: seq<Parameter>) {
    && (forall k :: 0 <= k < |ps| ==> ps[k].stream < 4)
    && forall j, k :: 0 <= j < k < |ps| ==> ps[j].stream <= ps[k].stream
  }

  /** The parameters of one stream, in order. */
  function OfStream(ps: seq<Parameter>, s: nat): seq<Parameter> {
    if ps == [] then []
    else OfStream(ps[..|ps| - 1], s) + if ps[|ps| - 1].stream == s then [ps[|ps| - 1]] else []
  }

  function Concatenated(ps: seq<Parameter>, n: nat): seq<Parameter> {
    if n == 0 then [] else Concatenated(ps, n - 1) + Slice(ps, n - 1)
  }

  /** The slices are always a prefix of the list, each of a single stream. */
  lemma {:induction false} SlicesArePrefix(ps: seq<Parameter>, n: nat)
    ensures Concatenated(ps, n) == ps[..CutAt(ps, n)]
  {
    hide CutAt, RunEnd, Slice;
    if n > 0 {
      SlicesArePrefix(ps, n - 1);
      SliceCuts(ps, n - 1);
      var from, to := CutAt(ps, n - 1), CutAt(ps, n);
      assert ps[..from] + ps[from..to] == ps[..to];
    } else {
      NoCut(ps);
    }
  }

  lemma NoCut(ps: seq<Parameter>)
    ensures CutAt(ps, 0) == 0
  {
  }

  lemma {:induction false} OrderedCuts(ps: seq<Parameter>, s: nat)
    requires Ordered(ps) && s <= STREAMS
    ensures forall k :: 0 <= k < |ps| ==> (k < CutAt(ps, s) <==> ps[k].stream < s)
  {
    if s > 0 {
      OrderedCuts(ps, s - 1);
    }
  }

  lemma {:induction false} CutsOrder(ps: seq<Parameter>, s: nat)
    ensures forall k :: 0 <= k < CutAt(ps, s) ==> ps[k].stream < s
    ensures forall j, k :: 0 <= j < k < CutAt(ps, s) ==> ps[j].stream <= ps[k].stream
  {
    if s > 0 {
      CutsOrder(ps, s - 1);
    }
  }

  /** The slices make up the whole list exactly if the streams do not decrease. */
  lemma SlicesCoverIffOrdered(ps: seq<Parameter>)
    ensures Concatenated(ps, STREAMS) == ps <==> Ordered(ps)
  {
    SlicesArePrefix(ps, STREAMS);
    CutIsAll(ps);
    assert Concatenated(ps, STREAMS) == ps <==> CutAt(ps, STREAMS) == |ps|;
  }

  lemma {:induction false} OfStreamNone(ps: seq<Parameter>, s: nat)
    requires forall k :: 0 <= k < |ps| ==> ps[k].stream != s
    ensures OfStream(ps, s) == []
  {
    if ps != [] {
      OfStreamNone(ps[..|ps| - 1], s);
    }
  }

  lemma {:induction false} OfStreamAll(ps: seq<Parameter>, s: nat)
    requires forall k :: 0 <= k < |ps| ==> ps[k].stream == s
    ensures OfStream(ps, s) == ps
  {
    if ps != [] {
      OfStreamAll(ps[..|ps| - 1], s);
    }
  }

  lemma {:induction false} OfStreamAppend(a: seq<Parameter>, b: seq<Parameter>, s: nat)
    ensures OfStream(a + b, s) == OfStream(a, s) + OfStream(b, s)
    decreases |b|
  {
    if b == [] {
      assert a + b == a;
    } else {
      assert (a + b)[..|a + b| - 1] == a + b[..|b| - 1];
      OfStreamAppend(a, b[..|b| - 1], s);
    }
  }

  lemma SliceCuts(ps: seq<Parameter>, s: nat)
    ensures CutAt(ps, s) <= CutAt(ps, s + 1) && Slice(ps, s) == ps[CutAt(ps, s)..CutAt(ps, s + 1)]
  {
  }

  lemma StreamBetween(ps: seq<Parameter>, s: nat, from: nat, to: nat)
    requires from <= to <= |ps| && forall k :: 0 <= k < |ps| ==> (ps[k].stream == s <==> from <= k < to)
    ensures OfStream(ps, s) == ps[from..to]
  {
    hide OfStream;
    var a, b, c := ps[..from], ps[from..to], ps[to..];
    OfStreamNone(a, s);
    OfStreamAll(b, s);
    OfStreamNone(c, s);
    OfStreamAppend(a, b, s);
    OfStreamAppend(a + b, c, s);
    assert ps == (a + b) + c;
  }

  /** Slice `s` holds exactly the parameters of stream `s`, in order. */
  lemma SliceIsStream(ps: seq<Parameter>, s: nat)
    requires Ordered(ps) && s < STREAMS
    ensures Slice(ps, s) == OfStream(ps, s)
  {
    hide CutAt, OfStream, Slice;
    OrderedCuts(ps, s);
    OrderedCuts(ps, s + 1);
    SliceCuts(ps, s);
    StreamBetween(ps, s, CutAt(ps, s), CutAt(ps, s + 1));
  }

  // ------------------------------------------------------------- names

  /** The sum of a name's lower-case characters, in 32 bits. */
  function CharSum(s: string): nat {
    if s == "" then 0 else (CharSum(s[..|s| - 1]) + ToLower(s[|s| - 1]) as nat) % WORD
  }

  lemma CharSumOfTwo(c: char, d: char)
    requires 'a' <= c <= 'z' && 'A' <= d <= 'Z'
    ensures CharSum([c, d]) == c as int + d as int + 32
  {
    assert [c, d][..1] == [c] && [c][..0] == [];
    assert CharSum([c]) == c as int;
  }

  /** Names that differ only in case have the same sum. */
  lemma {:induction false} CharSumIgnoresCase(a: string, b: string)
    requires SameText(a, b)
    ensures CharSum(a) == CharSum(b)
    decreases |a|
  {
    if a != "" {
      var n := |a| - 1;
      LowerIdentifies(a[n], b[n]);
      CharSumIgnoresCase(a[..n], b[..n]);
    }
  }

  predicate IsNamed(p: Parameter, name: string, index: nat) {
    p.index == index && p.name.Terminated? && SameText(p.name.text, name)
  }

  method LowerCaseCharSum(name: string) returns (sum: nat)
    ensures sum == CharSum(name)
  {
    sum := 0;
    for i := 0 to |name|
      invariant sum == CharSum(name[..i])
    {
      assert name[..i + 1][..i] == name[..i];
      sum := (sum + ToLower(name[i]) as nat) % WORD;
    }
    assert name[..|name|] == name;
  }

  // ------------------------------------------------------------- the parser

  /** `Outside`: a name behind the last stream was never checked, and runs out of the blob. */
  datatype Verdict = Ok | Failed | Outside

  class SignatureParser {
    var parameters: seq<Parameter>
    var charSums: seq<nat>
    var slices: seq<seq<Parameter>>

    predicate Valid()
      reads this
    {
      && |charSums| == |parameters|
      && forall k :: 0 <= k < |parameters| ==>
           parameters[k].name.Terminated? && charSums[k] == CharSum(parameters[k].name.text)
    }

    constructor ()
      ensures Valid() && parameters == []
    {
      parameters, charSums, slices := [], [], [];
    }

    /** One pass over the parameters: every stream's run must be proper.  The slices are those of
        the streams up to the last one with a parameter. */
    method Read(ps: seq<Parameter>, byReference: bool) returns (v: Verdict, room: nat, written: nat)
      modifies this
      ensures Valid()
      ensures v.Failed? <==> ps != [] && exists s :: 0 <= s < STREAMS && !Proper(Slice(ps, s))
      ensures v.Ok? ==> parameters == ps
      ensures v.Ok? ==> |slices| <= STREAMS && (forall s :: 0 <= s < |slices| ==> slices[s] == Slice(ps, s))
                        && forall s :: |slices| <= s < STREAMS ==> Slice(ps, s) == []
      ensures v.Outside? <==> UncheckedName(ps)
      ensures v.Ok? && ps != [] ==> room == Allocated(ps, byReference) && written == Written(ps, byReference)
    {
      hide CutAt, Allocated, Proper, NamesBytes, CharSum;
      parameters, charSums, slices := [], [], [];
      room, written := 0, 0;
      if ps == [] {
        NoSlices();
        v := Ok;
        return;
      }
      var proper, counts, sigs, names := CountRuns(ps);
      if !proper {
        v := Failed;
        return;
      }
      room := TotalSize(ps, byReference, names);
      var copied, sums, bytes := Copy(ps);
      Checked(ps, STREAMS);
      if copied < |ps| {
        assert CutAt(ps, STREAMS) <= copied;
        v := Outside;
        return;
      }
      written := (RECORD + CHAR_SUM) * |ps| + if byReference then 0 else bytes;
      parameters, charSums := ps, sums;
      slices := CutSlices(ps, counts, sigs);
      v := Ok;
    }

    /** The first parameter with this name and index; the sums only save comparisons. */
    method FindParameter(name: string, index: nat) returns (found: int)
      requires Valid()
      ensures -1 <= found < |parameters|
      ensures found >= 0 ==> IsNamed(parameters[found], name, index)
      ensures forall k :: 0 <= k < (if found >= 0 then found else |parameters|) ==> !IsNamed(parameters[k], name, index)
    {
      var sum := LowerCaseCharSum(name);
      for i := 0 to |parameters|
        invariant forall k :: 0 <= k < i ==> !IsNamed(parameters[k], name, index)
      {
        var p := parameters[i];
        LowerIsSameText(p.name.text, name);
        if p.index == index && sum == charSums[i] && Lower(p.name.text) == Lower(name) {
          return i;
        }
        if Lower(p.name.text) == Lower(name) {
          CharSumIgnoresCase(p.name.text, name);
        }
      }
      return -1;
    }
  }

  /** The size of the one allocation, in 32 bits. */
  method TotalSize(ps: seq<Parameter>, byReference: bool, names: nat) returns (room: nat)
    requires names == NamesBytes(ps[..CutAt(ps, STREAMS)]) % WORD
    ensures room == Allocated(ps, byReference)
  {
    hide CutAt, NamesBytes;
    room := ((RECORD * |ps|) % WORD + (CHAR_SUM * |ps|) % WORD + if byReference then 0 else names) % WORD;
    SizesAdd(RECORD * |ps|, CHAR_SUM * |ps|, if byReference then 0 else NamesBytes(ps[..CutAt(ps, STREAMS)]));
  }

  lemma NoSlices()
    ensures forall s :: 0 <= s < STREAMS ==> Slice([], s) == []
  {
  }

  /** Count the parameters of each stream's run, and the streams up to the last one with any. */
  method CountRuns(ps: seq<Parameter>) returns (proper: bool, counts: seq<nat>, sigs: nat, names: nat)
    ensures proper <==> forall s :: 0 <= s < STREAMS ==> Proper(Slice(ps, s))
    ensures proper ==> |counts| == STREAMS && sigs <= STREAMS
    ensures proper ==> names == NamesBytes(ps[..CutAt(ps, STREAMS)]) % WORD
    ensures proper ==> forall s :: 0 <= s < STREAMS ==>
      counts[s] == |Slice(ps, s)| && (sigs <= s ==> Slice(ps, s) == [])
  {
    hide Proper, CutAt, Slice;
    NoCut(ps);
    assert NamesBytes(ps[..0]) == 0;
    hide NamesBytes;
    counts, sigs, names := [], 0, 0;
    var i := 0;
    for s := 0 to STREAMS
      invariant i == CutAt(ps, s) && |counts| == s && sigs <= s && names == NamesBytes(ps[..i]) % WORD
      invariant forall t :: 0 <= t < s ==> counts[t] == |Slice(ps, t)| && Proper(Slice(ps, t))
      invariant forall t :: sigs <= t < s ==> Slice(ps, t) == []
    {
      var first := i;
      i, names := ReadRun(ps, first, s, names);
      SliceCuts(ps, s);
      if i > |ps| {
        assert !Proper(Slice(ps, s));
        return false, counts, sigs, names;
      }
      counts := counts + [i - first];
      if i > first {
        sigs := s + 1;
      }
    }
    return true, counts, sigs, names;
  }

  /** Hand each stream its part of the parameters. */
  method CutSlices(ps: seq<Parameter>, counts: seq<nat>, sigs: nat) returns (slices: seq<seq<Parameter>>)
    requires sigs <= |counts| && forall s :: 0 <= s < sigs ==> counts[s] == |Slice(ps, s)|
    ensures |slices| == sigs && forall s :: 0 <= s < sigs ==> slices[s] == Slice(ps, s)
  {
    slices := [];
    var previous := 0;
    for t := 0 to sigs
      invariant previous == CutAt(ps, t) && |slices| == t
      invariant forall k :: 0 <= k < t ==> slices[k] == Slice(ps, k)
    {
      SliceCuts(ps, t);
      slices := slices + [ps[previous..previous + counts[t]]];
      previous := previous + counts[t];
    }
  }

  /** Walk over one run; a number behind the list says that it is not proper. */
  method ReadRun(ps: seq<Parameter>, first: nat, s: nat, before: nat) returns (end: nat, names: nat)
    requires first == CutAt(ps, s) && before == NamesBytes(ps[..first]) % WORD
    ensures end <= |ps| ==> names == NamesBytes(ps[..end]) % WORD
    ensures end == if Proper(Slice(ps, s)) then CutAt(ps, s + 1) else |ps| + 1
  {
    hide Proper, CutAt, Slice, NamesBytes;
    SliceCuts(ps, s);
    ghost var to := RunEnd(ps, first, s);
    RunIsSlice(ps, s);
    ProperRange(ps, first, to);
    var last := 0;
    var i := first;
    names := before;
    while i < |ps| && ps[i].stream == s
      invariant first <= i <= to == RunEnd(ps, i, s)
      invariant forall k :: first <= k < i ==> ps[k].name.Terminated?
      invariant forall k :: first < k < i ==> ps[k - 1].register <= ps[k].register
      invariant i > first ==> last == ps[i - 1].register
      invariant names == NamesBytes(ps[..i]) % WORD
    {
      if ps[i].name.Unterminated? {
        return |ps| + 1, names;
      }
      if i > first && last > ps[i].register {
        return |ps| + 1, names;
      }
      last := ps[i].register;
      OneMoreName(ps, i);
      names := (names + |ps[i].name.text| + 1) % WORD;
      i := i + 1;
    }
    return i, names;
  }

  lemma OneMoreName(ps: seq<Parameter>, i: nat)
    requires i < |ps| && ps[i].name.Terminated?
    ensures NamesBytes(ps[..i + 1]) == NamesBytes(ps[..i]) + |ps[i].name.text| + 1
    ensures (NamesBytes(ps[..i]) % WORD + |ps[i].name.text| + 1) % WORD == NamesBytes(ps[..i + 1]) % WORD
  {
    assert ps[..i + 1][..i] == ps[..i];
  }

  /** Sizes are added in 32 bits one by one. */
  lemma SizesAdd(a: nat, b: nat, c: nat)
    ensures (a % WORD + b % WORD + c % WORD) % WORD == (a + b + c) % WORD
  {
  }

  lemma RunIsSlice(ps: seq<Parameter>, s: nat)
    ensures CutAt(ps, s + 1) == RunEnd(ps, CutAt(ps, s), s) && Slice(ps, s) == ps[CutAt(ps, s)..CutAt(ps, s + 1)]
  {
  }

  lemma ProperRange(ps: seq<Parameter>, from: nat, to: nat)
    requires from <= to <= |ps|
    ensures Proper(ps[from..to]) <==>
      && (forall k :: from <= k < to ==> ps[k].name.Terminated?)
      && (forall k :: from < k < to ==> ps[k - 1].register <= ps[k].register)
  {
    var run := ps[from..to];
    if Proper(run) {
      forall k | from <= k < to ensures ps[k].name.Terminated? {
        assert run[k - from].name.Terminated?;
      }
      forall k | from < k < to ensures ps[k - 1].register <= ps[k].register {
        assert run[k - from - 1].register <= run[k - from].register;
      }
    }
  }

  /** Copy names and compute their sums, as long as they end within the blob. */
  method Copy(ps: seq<Parameter>) returns (copied: nat, sums: seq<nat>, bytes: nat)
    ensures copied == |sums| <= |ps|
    ensures forall k :: 0 <= k < copied ==> ps[k].name.Terminated? && sums[k] == CharSum(ps[k].name.text)
    ensures copied < |ps| ==> ps[copied].name.Unterminated?
    ensures copied == |ps| ==> bytes == NamesBytes(ps)
  {
    copied, sums, bytes := 0, [], 0;
    while copied < |ps| && ps[copied].name.Terminated?
      invariant copied == |sums| <= |ps| && bytes == NamesBytes(ps[..copied])
      invariant forall k :: 0 <= k < copied ==> ps[k].name.Terminated? && sums[k] == CharSum(ps[k].name.text)
    {
      var sum := LowerCaseCharSum(ps[copied].name.text);
      sums := sums + [sum];
      OneMoreName(ps, copied);
      bytes := bytes + |ps[copied].name.text| + 1;
      copied := copied + 1;
    }
    assert ps[..|ps|] == ps;
  }

  /** Every name in a slice is checked. */
  lemma {:induction false} Checked(ps: seq<Parameter>, n: nat)
    requires forall s :: 0 <= s < n ==> Proper(Slice(ps, s))
    ensures forall k :: 0 <= k < CutAt(ps, n) ==> ps[k].name.Terminated?
  {
    hide Slice, CutAt, RunEnd, Proper;
    if n == 0 {
      NoCut(ps);
    } else {
      Checked(ps, n - 1);
      SliceCuts(ps, n - 1);
      ProperRange(ps, CutAt(ps, n - 1), CutAt(ps, n));
    }
  }

  /** One parameter of a stream that does not exist is enough. */
  lemma UncheckedStream(p: Parameter)
    requires p.stream >= STREAMS
    ensures UncheckedName([p]) <==> p.name.Unterminated?
  {
    assert CutAt([p], 1) == 0 && CutAt([p], 2) == 0 && CutAt([p], 3) == 0 && CutAt([p], 4) == 0;
    assert forall s :: 0 <= s < STREAMS ==> Slice([p], s) == [];
  }
}
