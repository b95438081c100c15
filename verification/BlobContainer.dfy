/** The container of a compiled shader: a header, an index of offsets and the blobs, which must lie
    end to end.  The checks compute in 32 bits what they compare, but guard in 64. */
module BlobContainer {
  import opened Basics

  const HEADER := 32       // bytes of the container header
  const BLOB_HEADER := 8   // tag and size
  const DXBC := 0x4342_5844
  const NOT_FOUND := WORD - 1

  type Byte = b: int | 0 <= b < 256
  type Bytes = seq<Byte>

  // ------------------------------------------------------------- words in bytes

  function Word(c: Bytes, at: nat): (w: nat)
    requires at + 4 <= |c|
    ensures w < WORD
  {
    c[at] as int + 256 * c[at + 1] as int + 65536 * c[at + 2] as int + 16777216 * c[at + 3] as int
  }

  function Half(c: Bytes, at: nat): nat
    requires at + 2 <= |c|
  {
    c[at] as int + 256 * c[at + 1] as int
  }

  function WordBytes(w: nat): (bs: Bytes)
    requires w < WORD
    ensures |bs| == 4
  {
    [w % 256, w / 256 % 256, w / 65536 % 256, w / 16777216]
  }

  lemma WordRoundTrip(w: nat)
    requires w < WORD
    ensures Word(WordBytes(w), 0) == w
  {
    var a, b := w / 256, w / 65536;
    assert b == a / 256 && w / 16777216 == b / 256;
    assert w == 256 * a + w % 256 && a == 256 * b + a % 256 && b == 256 * (b / 256) + b % 256;
  }

  // ------------------------------------------------------------- the checks

  predicate HasHeader(c: Bytes) {
    && HEADER <= |c| < WORD && Word(c, 24) == |c| && Word(c, 0) == DXBC && Half(c, 20) == 1 && Half(c, 22) == 0
  }

  /** The letters D, X, B and C, sixteen bytes nobody looks at, version 1.0 and the size, lowest
      byte first. */
  ghost predicate BeginsContainer(c: Bytes) {
    && |c| >= 32 && c[0] == 68 && c[1] == 88 && c[2] == 66 && c[3] == 67
    && c[20] == 1 && c[21] == 0 && c[22] == 0 && c[23] == 0
    && c[24] as int + 0x100 * c[25] as int + 0x1_0000 * c[26] as int + 0x100_0000 * c[27] as int == |c|
  }

  lemma HeaderBytes(c: Bytes)
    ensures HasHeader(c) <==> BeginsContainer(c) && |c| < 0x1_0000_0000
  {
  }

  function BlobCount(c: Bytes): nat
    requires HasHeader(c)
  {
    Word(c, 28)
  }

  /** The whole index lies in the container. */
  predicate Indexed(c: Bytes) { HasHeader(c) && HEADER + 4 * BlobCount(c) <= |c| }

  /** The index entry of blob `b` lies in the container. */
  predicate EntryInside(c: Bytes, b: nat) { HEADER + 4 * b + 4 <= |c| }

  function Offset(c: Bytes, b: nat): nat
    requires EntryInside(c, b)
  {
    Word(c, HEADER + 4 * b)
  }

  /** The offset of the last byte of the header and index, truncated to 32 bits. */
  function IndexEnd(c: Bytes): nat
    requires HasHeader(c)
  {
    (HEADER + 4 * BlobCount(c) - 1) % WORD
  }

  predicate HeaderInside(c: Bytes, b: nat)
    requires EntryInside(c, b)
  {
    Offset(c, b) + BLOB_HEADER <= |c|
  }

  function BlobSize(c: Bytes, b: nat): nat
    requires EntryInside(c, b) && HeaderInside(c, b)
  {
    Word(c, Offset(c, b) + 4)
  }

  function Tag(c: Bytes, b: nat): nat
    requires EntryInside(c, b) && HeaderInside(c, b)
  {
    Word(c, Offset(c, b))
  }

  /** The offset of the last byte of a blob, truncated to 32 bits. */
  function BlobEnd(c: Bytes, b: nat): nat
    requires EntryInside(c, b) && HeaderInside(c, b)
  {
    (Offset(c, b) + BLOB_HEADER + BlobSize(c, b) - 1) % WORD
  }

  /** A blob follows the one before it, or the index, as far as the truncated ends can tell. */
  predicate Follows(c: Bytes, b: nat)
    requires HasHeader(c) && EntryInside(c, b)
  {
    && HeaderInside(c, b) && BlobEnd(c, b) <= |c|
    && (b == 0 ==> IndexEnd(c) == (Offset(c, b) + WORD - 1) % WORD)
    && (b > 0 ==> HeaderInside(c, b - 1) && BlobEnd(c, b - 1) == (Offset(c, b) + WORD - 1) % WORD)
  }

  ghost predicate Accepted(c: Bytes) {
    Indexed(c) && forall b :: 0 <= b < BlobCount(c) ==> Follows(c, b)
  }

  /** The index reaches behind the container, unnoticed: its truncated end lies in the container, and
      so do all of the blobs whose entries do. */
  ghost predicate ReadsBehind(c: Bytes) {
    && HasHeader(c) && IndexEnd(c) <= |c| && !Indexed(c)
    && forall b :: 0 <= b < BlobCount(c) && EntryInside(c, b) ==> Follows(c, b)
  }

  /** The numbers of the blobs with a tag, from number `from` on, in order. */
  function Tagged(c: Bytes, tag: nat, from: nat): seq<nat>
    requires Indexed(c) && forall b :: 0 <= b < BlobCount(c) ==> HeaderInside(c, b)
    decreases BlobCount(c) - from
  {
    if from >= BlobCount(c) then []
    else (if Tag(c, from) == tag then [from] else []) + Tagged(c, tag, from + 1)
  }

  /** What one turn of the check finds out. */
  lemma EntryFollows(c: Bytes, b: nat, lastEnd: nat)
    requires HasHeader(c) && EntryInside(c, b) && (b == 0 ==> lastEnd == IndexEnd(c))
    requires b > 0 ==> HeaderInside(c, b - 1) && lastEnd == BlobEnd(c, b - 1)
    ensures HeaderInside(c, b) <==> Offset(c, b) + BLOB_HEADER <= |c|
    ensures HeaderInside(c, b) ==> BlobEnd(c, b) == (Offset(c, b) + BLOB_HEADER + Word(c, Offset(c, b) + 4) - 1) % WORD
    ensures Follows(c, b) <==> HeaderInside(c, b) && BlobEnd(c, b) <= |c| && lastEnd == (Offset(c, b) + WORD - 1) % WORD
  {
    hide Word, Half;
  }

  lemma BehindFrom(c: Bytes, b: nat)
    requires HasHeader(c) && IndexEnd(c) <= |c| && b < BlobCount(c) && !EntryInside(c, b)
    requires forall k :: 0 <= k < b ==> EntryInside(c, k) && Follows(c, k)
    ensures ReadsBehind(c) && !Indexed(c)
  {
  }

  lemma AllInside(c: Bytes)
    requires Accepted(c)
    ensures forall b :: 0 <= b < BlobCount(c) ==> HeaderInside(c, b)
  {
    forall b | 0 <= b < BlobCount(c) ensures HeaderInside(c, b) {
      assert Follows(c, b);
    }
  }

  /** They are the blobs with the tag and no others, by increasing numbers. */
  lemma {:induction false} TaggedMeans(c: Bytes, tag: nat, from: nat)
    requires Indexed(c) && forall b :: 0 <= b < BlobCount(c) ==> HeaderInside(c, b)
    ensures forall b :: b in Tagged(c, tag, from) <==> from <= b < BlobCount(c) && Tag(c, b) == tag
    ensures forall i, j :: 0 <= i < j < |Tagged(c, tag, from)| ==> Tagged(c, tag, from)[i] < Tagged(c, tag, from)[j]
    decreases BlobCount(c) - from
  {
    hide HasHeader, HeaderInside, BlobCount, Tag;
    if from < BlobCount(c) {
      TaggedMeans(c, tag, from + 1);
      var rest := Tagged(c, tag, from + 1);
      assert forall i :: 0 <= i < |rest| ==> rest[i] in rest;
    }
  }

  // ------------------------------------------------------------- the parser

  /** `Outside`: the source would read an index entry behind the container. */
  datatype Verdict = Ok | Failed | Outside

  class Parser {
    var container: Bytes
    var set_: bool

    predicate Valid()
      reads this
    {
      set_ ==> Indexed(container) && forall b :: 0 <= b < BlobCount(container) ==> HeaderInside(container, b)
    }

    constructor ()
      ensures Valid() && !set_
    {
      container, set_ := [], false;
    }

    /** A container is taken over exactly if it is accepted; otherwise the parser keeps what it has. */
    method Read(c: Bytes) returns (v: Verdict)
      requires Valid() && |c| < WORD
      modifies this
      ensures Valid()
      ensures v.Ok? <==> Accepted(c)
      ensures v.Ok? ==> BeginsContainer(c)
      ensures v.Outside? <==> ReadsBehind(c)
      ensures if v.Ok? then set_ && container == c else container == old(container) && set_ == old(set_)
    {
      HeaderBytes(c);
      hide Word, Half, Follows, BlobEnd, HeaderInside, BeginsContainer;
      if |c| < HEADER { return Failed; }
      if Word(c, 24) != |c| { return Failed; }
      if Word(c, 0) != DXBC || Half(c, 20) != 1 || Half(c, 22) != 0 { return Failed; }
      var count := Word(c, 28);
      var lastEnd := (HEADER + 4 * count - 1) % WORD;
      if lastEnd > |c| { return Failed; }
      for b := 0 to count
        invariant container == old(container) && set_ == old(set_) && count == BlobCount(c) && IndexEnd(c) <= |c|
        invariant b > 0 ==> EntryInside(c, b - 1)
        invariant forall k :: 0 <= k < b ==> EntryInside(c, k) && Follows(c, k)
        invariant b == 0 ==> lastEnd == IndexEnd(c)
        invariant b > 0 ==> HeaderInside(c, b - 1) && lastEnd == BlobEnd(c, b - 1)
      {
        if HEADER + 4 * b + 4 > |c| {
          BehindFrom(c, b);
          return Outside;
        }
        assert EntryInside(c, b);
        EntryFollows(c, b, lastEnd);
        var offset := Word(c, HEADER + 4 * b);
        if offset + BLOB_HEADER > |c| { return Failed; }
        var size := Word(c, offset + 4);
        var end := (offset + BLOB_HEADER + size - 1) % WORD;
        if end > |c| { return Failed; }
        if lastEnd != (offset + WORD - 1) % WORD { return Failed; }
        lastEnd := end;
      }
      assert Indexed(c);
      AllInside(c);
      container, set_ := c, true;
      return Ok;
    }

    /** The next blob from `start` on with a tag, or none. */
    method FindNext(tag: nat, start: nat) returns (found: nat)
      requires Valid()
      ensures !set_ ==> found == 0xFFFF_FFFF
      ensures set_ ==>
        Tagged(container, tag, start) == if found == NOT_FOUND then [] else [found] + Tagged(container, tag, found + 1)
      ensures set_ && found != NOT_FOUND ==> start <= found < BlobCount(container) && Tag(container, found) == tag
      ensures set_ ==> forall b :: start <= b < BlobCount(container) && (found == NOT_FOUND || b < found) ==>
        Tag(container, b) != tag
    {
      if !set_ { return NOT_FOUND; }
      var b := start;
      while b < BlobCount(container)
        invariant start <= b
        invariant forall k :: start <= k < b && k < BlobCount(container) ==> Tag(container, k) != tag
        invariant Tagged(container, tag, start) == Tagged(container, tag, b)
      {
        if Tag(container, b) == tag { return b; }
        b := b + 1;
      }
      return NOT_FOUND;
    }

    /** The search repeated behind each blob it finds: all blobs with the tag, in order. */
    method FindAll(tag: nat) returns (found: seq<nat>)
      requires Valid()
      ensures !set_ ==> found == []
      ensures set_ ==> forall b :: b in found <==> 0 <= b < BlobCount(container) && Tag(container, b) == tag
      ensures forall i, j :: 0 <= i < j < |found| ==> found[i] < found[j]
    {
      hide Tagged, HasHeader, HeaderInside, BlobCount, Tag, Word;
      found := [];
      var b := FindNext(tag, 0);
      while b != NOT_FOUND
        invariant !set_ ==> found == [] && b == NOT_FOUND
        invariant set_ && b != NOT_FOUND ==> b < BlobCount(container)
        invariant set_ ==>
          Tagged(container, tag, 0) == found + if b == NOT_FOUND then [] else [b] + Tagged(container, tag, b + 1)
        decreases if set_ && b != NOT_FOUND then BlobCount(container) - b else 0
      {
        found := found + [b];
        b := FindNext(tag, b + 1);
      }
      if set_ {
        assert found == Tagged(container, tag, 0);
        TaggedMeans(container, tag, 0);
      }
    }

    /** Where a blob's data starts, and how long it is: behind its tag and size. */
    method GetBlob(b: nat) returns (at: nat, size: nat)
      requires Valid()
      ensures set_ && b < BlobCount(container) ==>
        at == Offset(container, b) + BLOB_HEADER && size == BlobSize(container, b)
      ensures !(set_ && b < BlobCount(container)) ==> at == 0 && size == 0
      ensures forall x: Blob, start :: set_ && Holds(container, b, x, start) ==>
                at + size <= |container| && container[at..at + size] == x.data
    {
      if !set_ || BlobCount(container) <= b { return 0, 0; }
      return Offset(container, b) + BLOB_HEADER, BlobSize(container, b);
    }
  }

  // ------------------------------------------------------------- what acceptance means

  /** Where blob `b` ends, not truncated. */
  function After(c: Bytes, b: nat): nat
    requires Indexed(c) && b < BlobCount(c) && HeaderInside(c, b)
  {
    Offset(c, b) + BLOB_HEADER + BlobSize(c, b)
  }

  /** An accepted container whose offsets do not wrap tiles contiguously from the end of its
      index, and every blob but the last lies in it. */
  lemma AcceptedTiles(c: Bytes, b: nat)
    requires Accepted(c) && b < BlobCount(c)
    requires forall k :: 0 <= k < BlobCount(c) ==> HeaderInside(c, k) && After(c, k) < WORD
    ensures Offset(c, b) == if b == 0 then HEADER + 4 * BlobCount(c) else After(c, b - 1)
    ensures b + 1 < BlobCount(c) ==> After(c, b) <= |c|
    ensures After(c, b) <= |c| + 1
  {
    hide Word, Half, Follows, BlobEnd;
    if b == 0 {
      EndsMeet(c, 0);
    } else {
      EndsMeet(c, b);
      EndExact(c, b - 1);
    }
    EndsMeet(c, b);
    EndExact(c, b);
    if b + 1 < BlobCount(c) {
      EndsMeet(c, b + 1);
    }
  }

  lemma EndExact(c: Bytes, b: nat)
    requires Indexed(c) && b < BlobCount(c) && HeaderInside(c, b) && After(c, b) < WORD
    ensures BlobEnd(c, b) == After(c, b) - 1
  {
  }

  lemma EndsMeet(c: Bytes, b: nat)
    requires Accepted(c) && b < BlobCount(c) && HeaderInside(c, b)
    ensures BlobEnd(c, b) <= |c|
    ensures b == 0 ==> Offset(c, b) == HEADER + 4 * BlobCount(c)
    ensures b > 0 ==>
      HeaderInside(c, b - 1) && BlobEnd(c, b - 1) == if Offset(c, b) == 0 then WORD - 1 else Offset(c, b) - 1
  {
    hide Word, Half;
    assert Follows(c, b);
  }

  /** Exactly when an accepted blob lies in the container: its end must not wrap, and must not be
      the container's size itself, which the check lets pass. */
  lemma BlobInside(c: Bytes, b: nat)
    requires Accepted(c) && b < BlobCount(c)
    ensures HeaderInside(c, b)
    ensures After(c, b) <= |c| <==> After(c, b) <= WORD && BlobEnd(c, b) != |c|
  {
    hide Word, Half;
    assert Follows(c, b);
  }

  /** A header for a container of 44 bytes with one blob, of which only the blob header is there. */
  function Truncated(size: nat): Bytes
    requires size < WORD
  {
    WordBytes(DXBC) + WordBytes(0) + WordBytes(0) + WordBytes(0) + WordBytes(0) + WordBytes(1) + WordBytes(44)
    + WordBytes(1) + WordBytes(36) + WordBytes(0) + WordBytes(size)
  }

  lemma WordIn(c: Bytes, at: nat, w: nat)
    requires w < WORD && at + 4 <= |c| && c[at..at + 4] == WordBytes(w)
    ensures Word(c, at) == w
  {
    WordRoundTrip(w);
    var s := c[at..at + 4];
    assert c[at] == s[0] && c[at + 1] == s[1] && c[at + 2] == s[2] && c[at + 3] == s[3];
  }

  /** Both kinds are accepted: a blob one byte longer than the container, and one of nearly 2^32 bytes. */
  lemma AcceptedOutside(size: nat)
    requires size < WORD
    ensures Accepted(Truncated(size)) <==> size <= 1 || size >= WORD - 43
    ensures Accepted(Truncated(size)) && size != 0 ==> After(Truncated(size), 0) > |Truncated(size)|
  {
    var c := Truncated(size);
    TruncatedWords(size);
    hide Word, Half, WordBytes, Truncated;
    assert Indexed(c) && HeaderInside(c, 0);
    assert Accepted(c) <==> Follows(c, 0);
  }

  /** A container that ends before its first index entry does, and claims `count` blobs. */
  function Headed(count: nat, tail: Bytes): Bytes
    requires count < WORD && |tail| < 4
  {
    WordBytes(DXBC) + WordBytes(0) + WordBytes(0) + WordBytes(0) + WordBytes(0) + WordBytes(1)
    + WordBytes(HEADER + |tail|) + WordBytes(count) + tail
  }

  const QUARTER := 0x4000_0000  // a count of this many entries wraps to nothing

  /** It is read behind its end exactly if the size of its index wraps, or is one byte too large. */
  lemma IndexBehind(count: nat, tail: Bytes)
    requires 1 <= count < WORD && |tail| < 4
    ensures ReadsBehind(Headed(count, tail))
        <==> count % QUARTER == 0 || count % QUARTER >= QUARTER - 7 || (count % QUARTER == 1 && |tail| == 3)
  {
    var c := Headed(count, tail);
    HeadedWords(count, tail);
    hide Word, Half, WordBytes, Headed;
    assert HasHeader(c) && !Indexed(c);
    assert forall b: nat :: !EntryInside(c, b);
    QuarterWraps(count);
  }

  lemma QuarterWraps(count: nat)
    requires count < WORD
    ensures var m := count % QUARTER;
            (HEADER + 4 * count - 1) % WORD == if m >= QUARTER - 7 then 31 - 4 * (QUARTER - m) else 31 + 4 * m
  {
    var q, m := count / QUARTER, count % QUARTER;
    assert 4 * count + 31 == WORD * q + (31 + 4 * m);
    if m >= QUARTER - 7 {
      assert 4 * count + 31 == WORD * (q + 1) + (31 - 4 * (QUARTER - m));
      Remainder(q + 1, 31 - 4 * (QUARTER - m));
    } else {
      Remainder(q, 31 + 4 * m);
    }
  }

  lemma Remainder(q: nat, r: nat)
    requires r < WORD
    ensures (WORD * q + r) % WORD == r
  {
  }

  lemma HeadedWords(count: nat, tail: Bytes)
    requires count < WORD && |tail| < 4
    ensures var c := Headed(count, tail);
            && |c| == HEADER + |tail| && Word(c, 0) == DXBC && Half(c, 20) == 1 && Half(c, 22) == 0
            && Word(c, 24) == |c| && Word(c, 28) == count
  {
    var c := Headed(count, tail);
    assert c[0..4] == WordBytes(DXBC) && c[24..28] == WordBytes(HEADER + |tail|) && c[28..32] == WordBytes(count);
    assert c[20] == 1 && c[21] == 0 && c[22] == 0 && c[23] == 0;
    hide Headed, WordBytes;
    WordIn(c, 0, DXBC);
    WordIn(c, 24, HEADER + |tail|);
    WordIn(c, 28, count);
  }

  lemma TruncatedWords(size: nat)
    requires size < WORD
    ensures var c := Truncated(size);
            && |c| == 44 && Word(c, 0) == DXBC && Half(c, 20) == 1 && Half(c, 22) == 0 && Word(c, 24) == 44
            && Word(c, 28) == 1 && Word(c, 32) == 36 && Word(c, 40) == size
  {
    var c := Truncated(size);
    assert c[0..4] == WordBytes(DXBC) && c[24..28] == WordBytes(44) && c[28..32] == WordBytes(1);
    assert c[32..36] == WordBytes(36) && c[40..44] == WordBytes(size);
    assert c[20] == 1 && c[21] == 0 && c[22] == 0 && c[23] == 0;
    hide Truncated, WordBytes;
    WordIn(c, 0, DXBC);
    WordIn(c, 24, 44);
    WordIn(c, 28, 1);
    WordIn(c, 32, 36);
    WordIn(c, 40, size);
  }

  // ------------------------------------------------------------- blobs laid end to end

  datatype Blob = Blob(tag: nat, data: Bytes)

  predicate Encodable(b: Blob) { b.tag < WORD && |b.data| < WORD }

  function BlobBytes(b: Blob): Bytes
    requires Encodable(b)
  {
    WordBytes(b.tag) + WordBytes(|b.data|) + b.data
  }

  function Payload(blobs: seq<Blob>): Bytes
    requires forall b :: b in blobs ==> Encodable(b)
  {
    if blobs == [] then [] else Payload(blobs[..|blobs| - 1]) + BlobBytes(blobs[|blobs| - 1])
  }

  predicate Buildable(hash: Bytes, blobs: seq<Blob>) {
    && |hash| == 16 && |blobs| < WORD && (forall b :: b in blobs ==> Encodable(b))
    && HEADER + 4 * |blobs| + |Payload(blobs)| < WORD
  }

  function Start(blobs: seq<Blob>, b: nat): nat
    requires b <= |blobs| && forall x :: x in blobs ==> Encodable(x)
  {
    HEADER + 4 * |blobs| + |Payload(blobs[..b])|
  }

  lemma {:induction false} PayloadGrows(blobs: seq<Blob>, b: nat)
    requires b < |blobs| && forall x :: x in blobs ==> Encodable(x)
    ensures Payload(blobs[..b + 1]) == Payload(blobs[..b]) + BlobBytes(blobs[b])
    ensures Start(blobs, b + 1) == Start(blobs, b) + BLOB_HEADER + |blobs[b].data|
    ensures Start(blobs, b) < HEADER + 4 * |blobs| + |Payload(blobs)|
    decreases |blobs| - b
  {
    assert blobs[..b + 1][..b] == blobs[..b];
    if b + 1 < |blobs| {
      PayloadGrows(blobs, b + 1);
    } else {
      assert blobs[..b + 1] == blobs;
    }
  }

  function Index(blobs: seq<Blob>, n: nat): (i: Bytes)
    requires n <= |blobs| && (forall x :: x in blobs ==> Encodable(x)) && HEADER + 4 * |blobs| + |Payload(blobs)| < WORD
    ensures |i| == 4 * n
  {
    if n == 0 then []
    else
      PayloadGrows(blobs, n - 1);
      Index(blobs, n - 1) + WordBytes(Start(blobs, n - 1))
  }

  const VERSION: Bytes := [1, 0, 0, 0]  // major 1, minor 0

  function Laid(tag: Bytes, hash: Bytes, version: Bytes, size: Bytes, count: Bytes, index: Bytes,
                payload: Bytes): Bytes {
    tag + (hash + (version + (size + (count + (index + payload)))))
  }

  function Build(hash: Bytes, blobs: seq<Blob>): Bytes
    requires Buildable(hash, blobs)
  {
    Laid(WordBytes(DXBC), hash, VERSION, WordBytes(HEADER + 4 * |blobs| + |Payload(blobs)|), WordBytes(|blobs|),
         Index(blobs, |blobs|), Payload(blobs))
  }

  /** The bytes `part` are at `at`. */
  predicate Has(c: Bytes, at: nat, part: Bytes) { at + |part| <= |c| && c[at..at + |part|] == part }

  lemma HasParts(c: Bytes, at: nat, a: Bytes, b: Bytes)
    requires Has(c, at, a + b)
    ensures Has(c, at, a) && Has(c, at + |a|, b)
  {
    var both := c[at..at + |a + b|];
    assert both[..|a|] == a && both[|a|..] == b;
  }

  lemma {:induction false} HasEntry(c: Bytes, blobs: seq<Blob>, n: nat, b: nat)
    requires b < n <= |blobs| && (forall x :: x in blobs ==> Encodable(x))
    requires HEADER + 4 * |blobs| + |Payload(blobs)| < WORD
    requires Has(c, HEADER, Index(blobs, n))
    ensures Start(blobs, b) < WORD && Has(c, HEADER + 4 * b, WordBytes(Start(blobs, b)))
    decreases n
  {
    PayloadGrows(blobs, n - 1);
    HasParts(c, HEADER, Index(blobs, n - 1), WordBytes(Start(blobs, n - 1)));
    if b < n - 1 {
      HasEntry(c, blobs, n - 1, b);
    }
  }

  lemma {:induction false} HasBlob(c: Bytes, blobs: seq<Blob>, n: nat, b: nat)
    requires b < n <= |blobs| && forall x :: x in blobs ==> Encodable(x)
    requires Has(c, HEADER + 4 * |blobs|, Payload(blobs[..n]))
    ensures Has(c, Start(blobs, b), BlobBytes(blobs[b]))
    decreases n
  {
    hide Payload, BlobBytes;
    PayloadGrows(blobs, n - 1);
    HasParts(c, HEADER + 4 * |blobs|, Payload(blobs[..n - 1]), BlobBytes(blobs[n - 1]));
    if b < n - 1 {
      HasBlob(c, blobs, n - 1, b);
    }
  }

  lemma BuiltHeader(hash: Bytes, blobs: seq<Blob>)
    requires Buildable(hash, blobs)
    ensures var c := Build(hash, blobs);
            && HasHeader(c) && BlobCount(c) == |blobs|
            && Has(c, HEADER, Index(blobs, |blobs|)) && Has(c, HEADER + 4 * |blobs|, Payload(blobs))
  {
    hide HasHeader, Has, Word, WordBytes, Index, Payload, Half, BlobCount;
    LaidHeader(Build(hash, blobs), hash, |blobs|, Index(blobs, |blobs|), Payload(blobs));
  }

  lemma LaidHeader(c: Bytes, hash: Bytes, count: nat, index: Bytes, payload: Bytes)
    requires |hash| == 16 && count < WORD && |index| == 4 * count && HEADER + 4 * count + |payload| < WORD
    requires c == Laid(WordBytes(DXBC), hash, VERSION, WordBytes(HEADER + 4 * count + |payload|), WordBytes(count),
                       index, payload)
    ensures HasHeader(c) && BlobCount(c) == count && Has(c, HEADER, index) && Has(c, HEADER + 4 * count, payload)
  {
    hide Laid, WordBytes, Word, Half, HasHeader, Has;
    LaidParts(WordBytes(DXBC), hash, VERSION, WordBytes(HEADER + 4 * count + |payload|), WordBytes(count), index,
              payload);
    HeaderWords(c, HEADER + 4 * count + |payload|, count);
  }

  lemma LaidParts(tag: Bytes, hash: Bytes, version: Bytes, size: Bytes, count: Bytes, index: Bytes, payload: Bytes)
    requires |tag| == 4 && |hash| == 16 && |version| == 4 && |size| == 4 && |count| == 4
    ensures var c := Laid(tag, hash, version, size, count, index, payload);
            && |c| == HEADER + |index| + |payload|
            && Has(c, 0, tag) && Has(c, 20, version) && Has(c, 24, size) && Has(c, 28, count)
            && Has(c, HEADER, index) && Has(c, HEADER + |index|, payload)
  {
    var c := Laid(tag, hash, version, size, count, index, payload);
    var e := index + payload;
    var d := count + e;
    var f := size + d;
    var g := version + f;
    assert c[0..|c|] == c == tag + (hash + g);
    assert Has(c, 0, tag + (hash + g));
    hide Laid, Has;
    HasParts(c, 0, tag, hash + g);
    HasParts(c, 4, hash, g);
    HasParts(c, 20, version, f);
    HasParts(c, 24, size, d);
    HasParts(c, 28, count, e);
    HasParts(c, HEADER, index, payload);
  }

  lemma HeaderWords(c: Bytes, total: nat, count: nat)
    requires |c| == total < WORD && count < WORD && total >= HEADER
    requires Has(c, 0, WordBytes(DXBC)) && Has(c, 20, VERSION) && Has(c, 24, WordBytes(total))
    requires Has(c, 28, WordBytes(count))
    ensures HasHeader(c) && BlobCount(c) == count
  {
    hide WordBytes, Word;
    WordIn(c, 0, DXBC);
    WordIn(c, 24, total);
    WordIn(c, 28, count);
    var v := c[20..24];
    assert c[20] == v[0] && c[21] == v[1] && c[22] == v[2] && c[23] == v[3];
  }

  /** Blob `b` is found at `at`, with its tag and data. */
  predicate Holds(c: Bytes, b: nat, blob: Blob, at: nat) {
    && Indexed(c) && b < BlobCount(c) && Offset(c, b) == at && HeaderInside(c, b)
    && Tag(c, b) == blob.tag && BlobSize(c, b) == |blob.data|
    && After(c, b) <= |c| && c[Offset(c, b) + BLOB_HEADER..After(c, b)] == blob.data
  }

  /** Blob `b` of a built container is found where it was put. */
  lemma BuiltBlob(hash: Bytes, blobs: seq<Blob>, b: nat)
    requires Buildable(hash, blobs) && b < |blobs|
    ensures HasHeader(Build(hash, blobs)) && BlobCount(Build(hash, blobs)) == |blobs|
    ensures Holds(Build(hash, blobs), b, blobs[b], Start(blobs, b))
  {
    hide HasHeader, Has, Word, WordBytes, Index, Payload, Half, BlobCount, Build, Holds, Start;
    BuiltHeader(hash, blobs);
    PlacedBlob(Build(hash, blobs), blobs, b);
  }

  lemma PlacedBlob(c: Bytes, blobs: seq<Blob>, b: nat)
    requires (forall x :: x in blobs ==> Encodable(x)) && HEADER + 4 * |blobs| + |Payload(blobs)| < WORD && b < |blobs|
    requires HasHeader(c) && BlobCount(c) == |blobs|
    requires Has(c, HEADER, Index(blobs, |blobs|)) && Has(c, HEADER + 4 * |blobs|, Payload(blobs))
    ensures Holds(c, b, blobs[b], Start(blobs, b))
  {
    hide HasHeader, Word, WordBytes, Payload, Index, Half, Start, BlobBytes;
    HasEntry(c, blobs, |blobs|, b);
    WordIn(c, HEADER + 4 * b, Start(blobs, b));
    assert blobs[..|blobs|] == blobs;
    HasBlob(c, blobs, |blobs|, b);
    BlobRead(c, blobs[b], Start(blobs, b));
  }

  lemma BlobRead(c: Bytes, x: Blob, at: nat)
    requires Encodable(x) && Has(c, at, BlobBytes(x))
    ensures at + BLOB_HEADER + |x.data| <= |c| && Word(c, at) == x.tag && Word(c, at + 4) == |x.data|
    ensures c[at + BLOB_HEADER..at + BLOB_HEADER + |x.data|] == x.data
  {
    hide Word, WordBytes;
    HasParts(c, at, WordBytes(x.tag) + WordBytes(|x.data|), x.data);
    HasParts(c, at, WordBytes(x.tag), WordBytes(|x.data|));
    WordIn(c, at, x.tag);
    WordIn(c, at + 4, |x.data|);
  }

  /** Any list of blobs laid end to end behind the header and index is accepted, and read back
      blob for blob. */
  lemma BuildRoundTrip(hash: Bytes, blobs: seq<Blob>)
    requires Buildable(hash, blobs)
    ensures Accepted(Build(hash, blobs)) && BlobCount(Build(hash, blobs)) == |blobs|
    ensures forall b :: 0 <= b < |blobs| ==> Holds(Build(hash, blobs), b, blobs[b], Start(blobs, b))
  {
    var c := Build(hash, blobs);
    BuiltHeader(hash, blobs);
    forall b | 0 <= b < |blobs| ensures Holds(c, b, blobs[b], Start(blobs, b)) {
      BuiltBlob(hash, blobs, b);
    }
    hide Build, Word, Payload, Index, Half, Start, Follows;
    forall b | 0 <= b < |blobs| ensures Follows(c, b) {
      BuiltFollows(c, blobs, b);
    }
  }

  lemma BuiltFollows(c: Bytes, blobs: seq<Blob>, b: nat)
    requires (forall x :: x in blobs ==> Encodable(x)) && b < |blobs|
    requires HasHeader(c) && BlobCount(c) == |blobs|
    requires forall k :: 0 <= k < |blobs| ==> Holds(c, k, blobs[k], Start(blobs, k))
    ensures Indexed(c) && Follows(c, b)
  {
    hide Word, Half, Payload, Start, Holds, BlobEnd, After;
    assert Holds(c, b, blobs[b], Start(blobs, b));
    EndIs(c, b, blobs[b], Start(blobs, b));
    if b > 0 {
      assert Holds(c, b - 1, blobs[b - 1], Start(blobs, b - 1));
      PayloadGrows(blobs, b - 1);
      EndIs(c, b - 1, blobs[b - 1], Start(blobs, b - 1));
    } else {
      FirstStart(blobs);
    }
  }

  lemma FirstStart(blobs: seq<Blob>)
    requires forall x :: x in blobs ==> Encodable(x)
    ensures Start(blobs, 0) == HEADER + 4 * |blobs|
  {
  }

  lemma EndIs(c: Bytes, b: nat, blob: Blob, at: nat)
    requires Holds(c, b, blob, at)
    ensures Indexed(c) && b < BlobCount(c) && HeaderInside(c, b) && Offset(c, b) == at
    ensures BlobEnd(c, b) == at + BLOB_HEADER + |blob.data| - 1 < |c|
  {
    hide Word;
  }

  // ------------------------------------------------------------- a shader's code

  const SHEX := 0x5845_4853
  const SHDR := 0x5244_4853

  /** The tags of extended and plain shader code, in letters. */
  lemma CodeTags(c: Bytes)
    requires |c| == 4
    ensures Word(c, 0) == SHEX <==> c == [83, 72, 69, 88]
    ensures Word(c, 0) == SHDR <==> c == [83, 72, 68, 82]
  {
  }

  /** The first blob with a tag, or their number if there is none. */
  function FirstTagged(blobs: seq<Blob>, tag: nat, from: nat): (b: nat)
    requires from <= |blobs|
    ensures from <= b <= |blobs| && (b < |blobs| ==> blobs[b].tag == tag)
    ensures forall k :: from <= k < b ==> blobs[k].tag != tag
    decreases |blobs| - from
  {
    if from == |blobs| || blobs[from].tag == tag then from else FirstTagged(blobs, tag, from + 1)
  }

  /** The first extended shader, or if there is none the first plain one. */
  function CodeOf(blobs: seq<Blob>): nat {
    if FirstTagged(blobs, SHEX, 0) < |blobs| then FirstTagged(blobs, SHEX, 0) else FirstTagged(blobs, SHDR, 0)
  }

  /** `found` is what a search for `tag` from the first blob on returns. */
  ghost predicate IsFirst(c: Bytes, tag: nat, found: nat)
    requires Indexed(c) && forall b :: 0 <= b < BlobCount(c) ==> HeaderInside(c, b)
  {
    && (found != NOT_FOUND ==> found < BlobCount(c) && Tag(c, found) == tag)
    && forall b :: 0 <= b < BlobCount(c) && (found == NOT_FOUND || b < found) ==> Tag(c, b) != tag
  }

  lemma BuiltFirst(hash: Bytes, blobs: seq<Blob>, tag: nat, found: nat)
    requires Buildable(hash, blobs)
    ensures Indexed(Build(hash, blobs)) && BlobCount(Build(hash, blobs)) == |blobs|
    ensures forall b :: 0 <= b < |blobs| ==> HeaderInside(Build(hash, blobs), b)
    ensures found < |blobs| ==> exists at: nat :: Holds(Build(hash, blobs), found, blobs[found], at)
    ensures IsFirst(Build(hash, blobs), tag, found) ==>
              found == if FirstTagged(blobs, tag, 0) < |blobs| then FirstTagged(blobs, tag, 0) else NOT_FOUND
  {
    hide Build, Payload, Half, Word, Follows, Start;
    var c := Build(hash, blobs);
    BuildRoundTrip(hash, blobs);
    forall b | 0 <= b < |blobs| ensures HeaderInside(c, b) && Tag(c, b) == blobs[b].tag {
      assert Holds(c, b, blobs[b], Start(blobs, b));
    }
    if found < |blobs| {
      assert Holds(c, found, blobs[found], Start(blobs, found));
    }
  }

  /** What compilation starts with: where a shader's code lies in its container. */
  method FindCode(c: Bytes) returns (found: bool, at: nat, size: nat)
    requires |c| < WORD
    ensures found ==> Accepted(c)
    ensures forall hash, blobs: seq<Blob> :: Buildable(hash, blobs) && c == Build(hash, blobs) ==>
              && (found <==> CodeOf(blobs) < |blobs|)
              && (found ==> at + size <= |c| && c[at..at + size] == blobs[CodeOf(blobs)].data)
  {
    hide Build, Buildable, Holds, Tagged, Follows, Start, FirstTagged, Half, Word;
    var parser := new Parser();
    var v := parser.Read(c);
    found, at, size := false, 0, 0;
    if v.Ok? {
      var first := parser.FindNext(SHEX, 0);
      assert IsFirst(c, SHEX, first);
      var b := first;
      if b == NOT_FOUND {
        b := parser.FindNext(SHDR, 0);
        assert IsFirst(c, SHDR, b);
      }
      if b != NOT_FOUND {
        found := true;
        at, size := parser.GetBlob(b);
      }
      forall hash, blobs: seq<Blob> | Buildable(hash, blobs) && c == Build(hash, blobs)
        ensures && (found <==> CodeOf(blobs) < |blobs|)
                && (found ==> at + size <= |c| && c[at..at + size] == blobs[CodeOf(blobs)].data)
      {
        BuildRoundTrip(hash, blobs);
        BuiltFirst(hash, blobs, SHEX, first);
        BuiltFirst(hash, blobs, SHDR, b);
      }
    } else {
      forall hash, blobs: seq<Blob> | Buildable(hash, blobs) ensures c != Build(hash, blobs) {
        BuildRoundTrip(hash, blobs);
      }
    }
  }
}
