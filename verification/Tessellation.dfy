/** Sizing the tessellation pipeline: a search over patches per group and tessellation factor
    must make a payload that is laid out later, elsewhere, fit; a second search bounds the mesh. */
module Tessellation {
  import opened Basics

  const PAYLOAD_LIMIT := 16384
  const MESH_LIMIT := 32768
  const WORKLOAD_SIZE := 56

  // ------------------------------------------------------------- rounding

  function Ceil(x: real): int { -((-x).Floor) }

  function Clamp(x: real, lo: real, hi: real): real {
    if x < lo then lo else if hi < x then hi else x
  }

  /** How many binary digits `n` has: 32 minus its leading zeros. */
  function BitLength(n: nat): nat {
    if n == 0 then 0 else 1 + BitLength(n / 2)
  }

  function Pow2(k: nat): (r: nat)
    ensures r >= 1
  {
    if k == 0 then 1 else 2 * Pow2(k - 1)
  }

  function NextPow2(x: nat): nat
    requires x >= 1
  {
    if x == 1 then 1 else Pow2(BitLength(x - 1))
  }

  lemma {:induction false} BitLengthBounds(n: nat)
    ensures n < Pow2(BitLength(n))
    ensures n > 0 ==> Pow2(BitLength(n)) <= 2 * n
  {
    if n > 0 {
      BitLengthBounds(n / 2);
      if n == 1 {
        assert BitLength(0) == 0;
      }
    }
  }

  lemma {:induction false} Pow2Monotone(a: nat, b: nat)
    requires a < b
    ensures 2 * Pow2(a) <= Pow2(b)
    decreases b
  {
    if a < b - 1 {
      Pow2Monotone(a, b - 1);
    }
  }

  /** The least power of two that is not below `x`. */
  lemma NextPow2Least(x: nat, k: nat)
    requires x >= 1
    ensures x <= NextPow2(x) < 2 * x
    ensures x <= Pow2(k) ==> NextPow2(x) <= Pow2(k)
  {
    if x > 1 {
      BitLengthBounds(x - 1);
      var l := BitLength(x - 1);
      if k < l && x <= Pow2(k) {
        Pow2Monotone(k, l);
      } else if l < k {
        Pow2Monotone(l, k);
      }
    }
  }

  // ------------------------------------------------------------- the hull stage

  datatype Partitioning = Undefined | Integer | PowerOfTwo | FractionalOdd | FractionalEven
  datatype Domain = NoDomain | Isoline | Tri | Quad

  datatype Hull = Hull(
    partitioning: Partitioning,
    domain: Domain,
    outputRegisters: nat,
    controlPoints: nat,
    patchScalars: nat)

  /** How many segments a factor makes of an edge. */
  function IntegerFactor(p: Partitioning, f: real): nat {
    match p
    case Undefined => 0
    case Integer => Ceil(Clamp(f, 1.0, 64.0))
    case PowerOfTwo =>
      var n := Clamp(f, 1.0, 64.0).Floor;
      NextPow2(n)
    case FractionalOdd =>
      var n := Ceil(Clamp(f, 1.0, 63.0));
      if n % 2 == 1 then n else n + 1
    case FractionalEven =>
      var n := Ceil(Clamp(f, 2.0, 64.0));
      if n % 2 == 1 then n + 1 else n
  }

  /** The numbers of segments a partitioning can make. */
  predicate Segments(p: Partitioning, n: int) {
    match p
    case Undefined => n == 0
    case Integer => 1 <= n <= 64
    case PowerOfTwo => n in {1, 2, 4, 8, 16, 32, 64}
    case FractionalOdd => 1 <= n <= 63 && n % 2 == 1
    case FractionalEven => 2 <= n <= 64 && n % 2 == 0
  }

  lemma CeilBounds(x: real, n: int)
    ensures x <= Ceil(x) as real < x + 1.0
    ensures x <= n as real <==> Ceil(x) <= n
  {
  }

  lemma PowersUpTo64(x: nat, m: nat)
    requires 1 <= x <= 64 && m in {1, 2, 4, 8, 16, 32, 64}
    ensures NextPow2(x) in {1, 2, 4, 8, 16, 32, 64}
    ensures x <= m <==> NextPow2(x) <= m
  {
    assert Pow2(1) == 2 && Pow2(2) == 4 && Pow2(3) == 8 && Pow2(4) == 16 && Pow2(5) == 32 && Pow2(6) == 64;
    NextPow2Least(x, 6);
    var k: nat :=
      if m == 1 then 0 else if m == 2 then 1 else if m == 4 then 2 else if m == 8 then 3
      else if m == 16 then 4 else if m == 32 then 5 else 6;
    NextPow2Least(x, k);
    if x > 1 {
      var l := BitLength(x - 1);
      if l > 6 {
        Pow2Monotone(6, l);
      }
    }
  }

  /** The real number whose rounding up is the number of segments: the clamped factor, and powers
      of two first drop its fraction. */
  function Clamped(p: Partitioning, f: real): real {
    match p
    case PowerOfTwo => Clamp(f, 1.0, 64.0).Floor as real
    case FractionalOdd => Clamp(f, 1.0, 63.0)
    case FractionalEven => Clamp(f, 2.0, 64.0)
    case _ => Clamp(f, 1.0, 64.0)
  }

  /** A defined partitioning rounds the clamped factor up to the least number of segments it can
      make. */
  lemma RoundsUp(p: Partitioning, f: real, n: int)
    requires p != Undefined
    ensures Segments(p, IntegerFactor(p, f))
    ensures Segments(p, n) ==> (Clamped(p, f) <= n as real <==> IntegerFactor(p, f) <= n)
  {
    CeilBounds(Clamped(p, f), n);
    if p.PowerOfTwo? {
      var x := Clamp(f, 1.0, 64.0).Floor;
      PowersUpTo64(x, 64);
      if Segments(p, n) {
        PowersUpTo64(x, n);
      }
    } else {
      CeilBounds(Clamped(p, f), 64);
      CeilBounds(Clamped(p, f), 63);
      CeilBounds(Clamped(p, f), n - 1);
    }
  }

  /** A number of segments is its own factor, and factor 1 makes the fewest. */
  lemma LeastSegments(p: Partitioning, n: int)
    requires p != Undefined && Segments(p, n)
    ensures IntegerFactor(p, n as real) == n
    ensures IntegerFactor(p, 1.0) <= n
  {
    RoundsUp(p, n as real, n);
    RoundsUp(p, n as real, IntegerFactor(p, n as real));
    RoundsUp(p, 1.0, n);
  }

  lemma FactorMonotone(p: Partitioning, f: real, g: real)
    requires p != Undefined && f <= g
    ensures IntegerFactor(p, f) <= IntegerFactor(p, g)
  {
    RoundsUp(p, g, IntegerFactor(p, g));
    RoundsUp(p, f, IntegerFactor(p, g));
  }

  /** The most workloads a patch of `n` segments is expected to make. */
  function MaxWorkloads(d: Domain, n: nat): nat {
    match d
    case NoDomain => 0
    case Isoline => 0
    case Tri => QuarterUp(n) * 3 + n % 2
    case Quad => QuarterUp(n) * 4 + n % 2
  }

  /** A quarter of `n - 1`, rounded up; the subtraction is unsigned. */
  function QuarterUp(n: nat): nat { ((n + WORD - 1) % WORD + 3) / 4 }

  lemma QuarterUpIs(n: nat)
    requires 1 <= n < WORD
    ensures QuarterUp(n) == (n + 2) / 4
  {
    assert (n + WORD - 1) % WORD == n - 1;
  }

  /** The bytes of a payload: the control points of a group's patches, their constants, the first
      patch id, and the workloads, whose size is computed in 32 bits. */
  function PayloadSize(h: Hull, segments: nat, patches: nat): nat {
    16 * h.outputRegisters * h.controlPoints * patches + 4 * h.patchScalars * patches + 4
    + MaxWorkloads(h.domain, segments) * patches * WORKLOAD_SIZE % WORD
  }

  function EstimatePayload(h: Hull, f: real, patches: nat): nat {
    PayloadSize(h, IntegerFactor(h.partitioning, f), patches)
  }

  /** The allocation size of the struct laid out later: control points align it to 16 bytes. */
  function StructSize(h: Hull, segments: nat, patches: nat): nat {
    (PayloadSize(h, segments, patches) + 15) / 16 * 16
  }

  // ------------------------------------------------------------- what is in a payload

  /** One register of a control point, one scalar of a patch's constants, the first patch's id, and one
      slot for a workload of any of the patches. */
  datatype Element =
    | ControlPoint(patch: nat, point: nat, register: nat)
    | Constant(patch: nat, scalar: nat)
    | FirstPatch
    | Slot(index: nat)

  /** The payload of a group of `patches`, with slots for `workloads` of them each. */
  predicate Present(e: Element, h: Hull, workloads: nat, patches: nat) {
    match e
    case ControlPoint(patch, point, register) =>
      patch < patches && point < h.controlPoints && register < h.outputRegisters
    case Constant(patch, scalar) => patch < patches && scalar < h.patchScalars
    case FirstPatch => true
    case Slot(index) => index < workloads * patches
  }

  /** Four floats, a float, an integer, a record of 56 bytes. */
  function Bytes(e: Element): nat {
    match e
    case ControlPoint(_, _, _) => 16
    case Constant(_, _) => 4
    case FirstPatch => 4
    case Slot(_) => 56
  }

  /** Row by row: the element `(a, b)` of a table with rows of `n`. */
  function Row(a: nat, n: nat, b: nat): nat { a * n + b }

  /** Where an element lies: the four members of the struct one behind the other. */
  function Place(e: Element, h: Hull, patches: nat): nat {
    var points := 16 * (patches * h.controlPoints * h.outputRegisters);
    var constants := 4 * (patches * h.patchScalars);
    match e
    case ControlPoint(patch, point, register) =>
      16 * Row(Row(patch, h.controlPoints, point), h.outputRegisters, register)
    case Constant(patch, scalar) => points + 4 * Row(patch, h.patchScalars, scalar)
    case FirstPatch => points + constants
    case Slot(index) => points + constants + 4 + 56 * index
  }

  lemma RowBelow(a: nat, m: nat, n: nat, b: nat)
    requires a < m && b < n
    ensures Row(a, n, b) < m * n
  {
    assert (m - a - 1) * n >= 0 && m * n == (m - a - 1) * n + a * n + n;
  }

  lemma RowOnce(a: nat, c: nat, n: nat, b: nat, d: nat)
    requires b < n && d < n && Row(a, n, b) == Row(c, n, d)
    ensures a == c && b == d
  {
    if a < c {
      RowBelow(a, c, n, b);
    } else if c < a {
      RowBelow(c, a, n, d);
    }
  }

  /** No two elements share a byte. */
  lemma ElementsApart(e: Element, f: Element, h: Hull, workloads: nat, patches: nat)
    requires Present(e, h, workloads, patches) && Present(f, h, workloads, patches) && e != f
    ensures Place(e, h, patches) + Bytes(e) <= Place(f, h, patches)
            || Place(f, h, patches) + Bytes(f) <= Place(e, h, patches)
  {
    ElementInMember(e, h, workloads, patches);
    ElementInMember(f, h, workloads, patches);
    hide Row;
    if e.ControlPoint? && f.ControlPoint? {
      if Row(Row(e.patch, h.controlPoints, e.point), h.outputRegisters, e.register)
          == Row(Row(f.patch, h.controlPoints, f.point), h.outputRegisters, f.register) {
        RowOnce(Row(e.patch, h.controlPoints, e.point), Row(f.patch, h.controlPoints, f.point), h.outputRegisters,
                e.register, f.register);
        RowOnce(e.patch, f.patch, h.controlPoints, e.point, f.point);
      }
    } else if e.Constant? && f.Constant? {
      if Row(e.patch, h.patchScalars, e.scalar) == Row(f.patch, h.patchScalars, f.scalar) {
        RowOnce(e.patch, f.patch, h.patchScalars, e.scalar, f.scalar);
      }
    }
  }

  /** Every element lies in its member of the struct. */
  lemma ElementInMember(e: Element, h: Hull, workloads: nat, patches: nat)
    requires Present(e, h, workloads, patches)
    ensures var points := 16 * (patches * h.controlPoints * h.outputRegisters);
            var constants := 4 * (patches * h.patchScalars);
            var end := Place(e, h, patches) + Bytes(e);
            match e
            case ControlPoint(_, _, _) => end <= points
            case Constant(_, _) => points <= Place(e, h, patches) && end <= points + constants
            case FirstPatch => end == points + constants + 4
            case Slot(_) => points + constants + 4 <= Place(e, h, patches)
                            && end <= points + constants + 4 + 56 * (workloads * patches)
  {
    if e.ControlPoint? {
      RowBelow(e.patch, patches, h.controlPoints, e.point);
      RowBelow(Row(e.patch, h.controlPoints, e.point), patches * h.controlPoints, h.outputRegisters, e.register);
    } else if e.Constant? {
      RowBelow(e.patch, patches, h.patchScalars, e.scalar);
    }
  }

  /** Everything that a group of `patches` at `n` segments needs lies below the limit. */
  ghost predicate RoomFor(h: Hull, n: nat, patches: nat) {
    forall e :: Present(e, h, MaxWorkloads(h.domain, n), patches) ==> Place(e, h, patches) + Bytes(e) <= 16384
  }

  lemma PayloadSizeIs(h: Hull, n: nat, patches: nat)
    requires n <= 64 && 1 <= n && patches <= 32
    ensures PayloadSize(h, n, patches) ==
              16 * (patches * h.controlPoints * h.outputRegisters) + 4 * (patches * h.patchScalars) + 4
              + 56 * (MaxWorkloads(h.domain, n) * patches)
  {
    FewWorkloads(h.domain, n);
    var w := MaxWorkloads(h.domain, n);
    hide MaxWorkloads;
    Products(w, w, 65, patches);
    Reorder(h.outputRegisters, h.controlPoints, patches);
    assert 4 * h.patchScalars * patches == 4 * (patches * h.patchScalars);
    Below(w * patches * WORKLOAD_SIZE, w * patches * WORKLOAD_SIZE);
  }

  lemma Reorder(a: nat, b: nat, c: nat)
    ensures 16 * a * b * c == 16 * (c * b * a)
  {
    calc {
      16 * a * b * c;
      16 * (a * b * c);
      { assert a * b * c == c * (b * a) == c * b * a; }
      16 * (c * b * a);
    }
  }

  /** The size computed is where the last element ends, so it is below the limit exactly if there is
      room for every element; rounding it up to the struct's alignment makes no difference. */
  lemma RoomIsSize(h: Hull, n: nat, patches: nat)
    requires 1 <= n <= 64 && patches <= 32
    ensures RoomFor(h, n, patches) <==> PayloadSize(h, n, patches) <= PAYLOAD_LIMIT
    ensures RoomFor(h, n, patches) <==> StructSize(h, n, patches) <= PAYLOAD_LIMIT
  {
    var w, size := MaxWorkloads(h.domain, n), PayloadSize(h, n, patches);
    RoundedSize(size);
    var last := LastElement(h, n, patches);
    hide PayloadSize, MaxWorkloads, Present, Place, Bytes;
    forall e | Present(e, h, w, patches) ensures Place(e, h, patches) + Bytes(e) <= size {
      ElementEnds(e, h, n, patches);
    }
  }

  lemma LastElement(h: Hull, n: nat, patches: nat) returns (last: Element)
    requires 1 <= n <= 64 && patches <= 32
    ensures Present(last, h, MaxWorkloads(h.domain, n), patches)
    ensures Place(last, h, patches) + Bytes(last) == PayloadSize(h, n, patches)
  {
    PayloadSizeIs(h, n, patches);
    var slots := MaxWorkloads(h.domain, n) * patches;
    hide PayloadSize, MaxWorkloads;
    last := if slots > 0 then Slot(slots - 1) else FirstPatch;
  }

  lemma ElementEnds(e: Element, h: Hull, n: nat, patches: nat)
    requires 1 <= n <= 64 && patches <= 32 && Present(e, h, MaxWorkloads(h.domain, n), patches)
    ensures Place(e, h, patches) + Bytes(e) <= PayloadSize(h, n, patches)
  {
    hide MaxWorkloads, PayloadSize, Place, Present, Bytes, Row;
    PayloadSizeIs(h, n, patches);
    ElementInMember(e, h, MaxWorkloads(h.domain, n), patches);
  }

  lemma FitsIsRoom(h: Hull, f: real, patches: nat)
    requires h.partitioning != Undefined && patches <= 32
    ensures Fits(h, f, patches) <==> RoomFor(h, IntegerFactor(h.partitioning, f), patches)
  {
    hide IntegerFactor, PayloadSize, RoomFor;
    RoundsUp(h.partitioning, f, IntegerFactor(h.partitioning, f));
    RoomIsSize(h, IntegerFactor(h.partitioning, f), patches);
  }

  // ------------------------------------------------------------- the payload search

  predicate Fits(h: Hull, f: real, patches: nat) { EstimatePayload(h, f, patches) <= PAYLOAD_LIMIT }

  datatype Search = Found(threadsPerPatch: nat, factor: real) | GroupTooLarge | PayloadTooLarge

  /** The factor after `k` reductions by two, never below one. */
  function Ladder(f: real, k: nat): real {
    if k == 0 then f
    else if Ladder(f, k - 1) - 2.0 < 1.0 then 1.0 else Ladder(f, k - 1) - 2.0
  }

  const GROUPS := {1, 2, 4, 8, 16, 32}

  lemma ThreadsGroups(threads: nat)
    requires threads >= 1
    ensures NextPow2(threads) <= 32 <==> threads <= 32
    ensures threads <= 32 ==> 32 / NextPow2(threads) in GROUPS && 32 / NextPow2(threads) * NextPow2(threads) == 32
  {
    NextPow2Least(threads, 5);
    assert Pow2(5) == 32;
    if threads <= 32 {
      PowersUpTo64(threads, 32);
    }
  }

  lemma NextRung(f: real, k: nat)
    ensures Ladder(f, 0) == f
    ensures Ladder(f, k + 1) == if Ladder(f, k) - 2.0 < 1.0 then 1.0 else Ladder(f, k) - 2.0
  {
  }

  lemma LowerRung(f: real)
    requires f > 1.0
    ensures var g := if f - 2.0 < 1.0 then 1.0 else f - 2.0; 1.0 <= g < f && 0 <= Ceil(g) < Ceil(f)
  {
    CeilBounds(f, 1);
    CeilBounds(f - 2.0, Ceil(f) - 2);
  }

  /** One patch of the fewest segments needs the least payload. */
  lemma NothingFits(h: Hull, least: real)
    requires h.partitioning != Undefined && least <= 1.0 && !Fits(h, least, 1)
    ensures forall f: real, g :: g in GROUPS ==> !Fits(h, f, g)
  {
    forall f: real, g | g in GROUPS ensures !Fits(h, f, g) {
      LeastPayload(h, least, f, g);
    }
  }

  lemma LeastPayload(h: Hull, least: real, f: real, patches: nat)
    requires h.partitioning != Undefined && least <= 1.0 && patches in GROUPS
    ensures EstimatePayload(h, least, 1) <= EstimatePayload(h, f, patches)
  {
    hide IntegerFactor, MaxWorkloads;
    var m, n := IntegerFactor(h.partitioning, least), IntegerFactor(h.partitioning, f);
    RoundsUp(h.partitioning, f, n);
    RoundsUp(h.partitioning, least, 1);
    RoundsUp(h.partitioning, least, 2);
    RoundsUp(h.partitioning, least, n);
    assert m <= 2 && m <= n;
    WorkloadBytes(h.domain, m, n, 1);
    PatchBytes(h, n, patches);
  }

  /** More patches need more of everything. */
  lemma PatchBytes(h: Hull, n: nat, patches: nat)
    requires 1 <= n <= 64 && 1 <= patches <= 32
    ensures PayloadSize(h, n, 1) <= PayloadSize(h, n, patches)
  {
    hide MaxWorkloads;
    var w := MaxWorkloads(h.domain, n);
    FewWorkloads(h.domain, n);
    Times(w, patches);
    Times(16 * h.outputRegisters * h.controlPoints, patches);
    Times(4 * h.patchScalars, patches);
    Products(w, w, 65, patches);
    Below(w * 1 * WORKLOAD_SIZE, w * patches * WORKLOAD_SIZE);
  }

  lemma Times(a: nat, b: nat)
    requires b >= 1
    ensures a <= a * b
  {
  }

  /** What the search finds, said of the elements of the payload. */
  ghost predicate BestRoom(h: Hull, maxThreads: nat, factor: real, r: Search)
    requires maxThreads >= 1
  {
    match r
    case Found(threads, f) =>
      && threads in GROUPS && RoomFor(h, IntegerFactor(h.partitioning, f), 32 / threads)
      && forall g :: g in GROUPS && 32 / threads < g <= 32 / NextPow2(maxThreads) ==>
           !RoomFor(h, IntegerFactor(h.partitioning, factor), g)
    case GroupTooLarge => maxThreads > 32
    case PayloadTooLarge => forall f: real, g :: g in GROUPS ==> !RoomFor(h, IntegerFactor(h.partitioning, f), g)
  }

  /** The most patches per group are kept: halving them goes before lowering the factor, and the
      factor is lowered only as far as one patch needs. */
  method FitPayload(h: Hull, maxThreads: nat, factor: real) returns (r: Search)
    requires maxThreads >= 1
    ensures r.GroupTooLarge? <==> maxThreads > 32
    ensures r.Found? ==>
      && r.threadsPerPatch in GROUPS && maxThreads <= r.threadsPerPatch
      && Fits(h, r.factor, 32 / r.threadsPerPatch)
      && (forall g :: g in GROUPS && 32 / r.threadsPerPatch < g <= 32 / NextPow2(maxThreads) ==> !Fits(h, factor, g))
      && (r.factor == factor || (r.threadsPerPatch == 32 && r.factor < factor))
      && exists k: nat :: r.factor == Ladder(factor, k) && forall i: nat :: i < k ==> !Fits(h, Ladder(factor, i), 1)
    ensures r.PayloadTooLarge? ==> maxThreads <= 32 && !Fits(h, if factor > 1.0 then 1.0 else factor, 1)
    ensures h.partitioning != Undefined ==>
      (r.PayloadTooLarge? <==> maxThreads <= 32 && forall f: real, g :: g in GROUPS ==> !Fits(h, f, g))
    ensures h.partitioning != Undefined ==> BestRoom(h, maxThreads, factor, r)
  {
    hide NextPow2, Fits, IntegerFactor, Ceil, Ladder, RoomFor;
    NextRung(factor, 0);
    ThreadsGroups(maxThreads);
    NextPow2Least(maxThreads, 0);
    var threads := NextPow2(maxThreads);
    if threads > 32 {
      return GroupTooLarge;
    }
    var patches := 32 / threads;
    var f := factor;
    ghost var steps: nat := 0;
    while !Fits(h, f, patches)
      invariant patches in GROUPS && patches <= 32 / threads
      invariant f == Ladder(factor, steps) && (steps > 0 ==> patches == 1 && 1.0 <= f < factor)
      invariant forall i: nat :: i < steps ==> !Fits(h, Ladder(factor, i), 1)
      invariant forall g :: g in GROUPS && patches < g <= 32 / threads ==> !Fits(h, factor, g)
      decreases patches, Ceil(f)
    {
      if patches == 1 {
        if f > 1.0 {
          LowerRung(f);
          NextRung(factor, steps);
          f := if f - 2.0 < 1.0 then 1.0 else f - 2.0;
          steps := steps + 1;
        } else {
          if h.partitioning != Undefined {
            NothingFits(h, f);
            NoRoom(h);
          }
          return PayloadTooLarge;
        }
      } else {
        patches := patches / 2;
      }
    }
    if h.partitioning != Undefined {
      FoundRoom(h, patches, 32 / threads, factor, f);
    }
    return Found(32 / patches, f);
  }

  lemma NoRoom(h: Hull)
    requires h.partitioning != Undefined && forall f: real, g :: g in GROUPS ==> !Fits(h, f, g)
    ensures forall f: real, g :: g in GROUPS ==> !RoomFor(h, IntegerFactor(h.partitioning, f), g)
  {
    hide RoomFor, IntegerFactor, Fits;
    forall f: real, g | g in GROUPS ensures !RoomFor(h, IntegerFactor(h.partitioning, f), g) {
      FitsIsRoom(h, f, g);
    }
  }

  lemma FoundRoom(h: Hull, patches: nat, most: nat, factor: real, f: real)
    requires h.partitioning != Undefined && patches in GROUPS && Fits(h, f, patches)
    requires forall g :: g in GROUPS && patches < g <= most ==> !Fits(h, factor, g)
    ensures 32 / (32 / patches) == patches && RoomFor(h, IntegerFactor(h.partitioning, f), patches)
    ensures forall g :: g in GROUPS && patches < g <= most ==> !RoomFor(h, IntegerFactor(h.partitioning, factor), g)
  {
    hide RoomFor, IntegerFactor, Fits;
    FitsIsRoom(h, f, patches);
    forall g | g in GROUPS && patches < g <= most ensures !RoomFor(h, IntegerFactor(h.partitioning, factor), g) {
      FitsIsRoom(h, factor, g);
    }
  }

  /** The stages compiled later round the thread count again, and get the same group. */
  lemma GroupRecomputed(patches: nat)
    requires patches in GROUPS
    ensures 32 / patches in GROUPS && NextPow2(32 / patches) == 32 / patches
    ensures NextPow2(32 / NextPow2(32 / patches)) == patches
  {
    hide NextPow2;
    GroupRounded(patches);
    GroupRounded(32 / patches);
  }

  lemma GroupRounded(patches: nat)
    requires patches in GROUPS
    ensures NextPow2(patches) == patches
  {
    PowersUpTo64(patches, patches);
    NextPow2Least(patches, 0);
  }

  // ------------------------------------------------------------- the final factor

  datatype Cap = NoCap | Cap(segments: nat)

  /** A whole factor that is within reach is used as it is; otherwise it rounds past itself. */
  lemma Whole(p: Partitioning, c: int, m: nat)
    requires p != Undefined
    ensures Segments(p, m) && m <= c ==> m <= IntegerFactor(p, c as real)
    ensures Segments(p, m) && m == c ==> IntegerFactor(p, c as real) == m
    ensures Segments(p, IntegerFactor(p, c as real))
  {
    RoundsUp(p, c as real, m);
    if Segments(p, m) {
      LeastSegments(p, m);
      if m <= c {
        FactorMonotone(p, m as real, c as real);
      }
    }
  }

  /** The factor the later stages clamp to, with its number of segments: the hull's own if the
      pipeline has no smaller cap; otherwise the largest number of segments within the cap, or the
      fewest the partitioning can make. */
  method FinalFactor(p: Partitioning, factor: real, cap: Cap) returns (f: real, segments: nat)
    requires p != Undefined
    ensures segments == IntegerFactor(p, f) <= IntegerFactor(p, factor)
    ensures cap.NoCap? || IntegerFactor(p, factor) <= cap.segments ==> f == factor
    ensures cap.Cap? ==> segments <= cap.segments || segments == IntegerFactor(p, 1.0)
    ensures cap.Cap? && IntegerFactor(p, factor) > cap.segments ==>
      forall m: nat :: Segments(p, m) && m <= cap.segments ==> m <= segments
  {
    f, segments := factor, IntegerFactor(p, factor);
    RoundsUp(p, factor, segments);
    if cap.Cap? && segments > cap.segments {
      f := cap.segments as real;
      ghost var c: int := cap.segments;
      while true
        invariant f == c as real && 0 <= c <= cap.segments
        invariant forall m: nat :: Segments(p, m) && m <= cap.segments ==> m <= c
        decreases c
      {
        segments := IntegerFactor(p, f);
        forall m: nat ensures Segments(p, m) && m <= cap.segments ==> m <= segments && (m == c ==> segments == m) {
          Whole(p, c, m);
        }
        if segments <= cap.segments {
          return;
        }
        f, c := f - 1.0, c - 1;
        if !(f > 1.0) {
          break;
        }
      }
      LeastSegments(p, IntegerFactor(p, factor));
      RoundsUp(p, 1.0, 1);
      LeastSegments(p, IntegerFactor(p, 1.0));
      segments := IntegerFactor(p, 1.0);
      f := segments as real;
    }
  }

  /** Fewer segments need no more workloads, with one exception: one less than a multiple of four. */
  lemma WorkloadsMonotone(d: Domain, m: nat, n: nat)
    requires d in {Tri, Quad} && 1 <= m <= n <= 64
    ensures MaxWorkloads(d, m) <= MaxWorkloads(d, n) <==> !(n % 4 == 0 && m == n - 1)
  {
    hide QuarterUp;
    QuarterUpIs(m);
    QuarterUpIs(n);
    if m < n {
      QuarterSteps(m, n);
    }
  }

  lemma Digits(n: nat) returns (q: nat, r: nat)
    ensures n + 2 == 4 * q + r && r < 4 && q == (n + 2) / 4
    ensures n % 2 == (if r == 1 || r == 3 then 1 else 0)
    ensures n % 4 == 0 <==> r == 2
  {
    q, r := (n + 2) / 4, (n + 2) % 4;
    DigitOf(n, q, r);
  }

  lemma DigitOf(n: nat, q: nat, r: nat)
    requires n + 2 == 4 * q + r && r < 4
    ensures n % 2 == (if r == 1 || r == 3 then 1 else 0)
    ensures n % 4 == 0 <==> r == 2
  {
    assert n == 2 * (2 * q - 1) + r && (r >= 2 ==> n == 4 * q + (r - 2)) && (r < 2 ==> n == 4 * (q - 1) + (r + 2));
  }

  lemma QuarterSteps(m: nat, n: nat)
    requires 1 <= m < n
    ensures var a, b := (m + 2) / 4, (n + 2) / 4;
            && a <= b && (a == b ==> m % 2 <= n % 2 || (n % 4 == 0 && m == n - 1))
            && (n % 4 == 0 && m == n - 1 ==> a == b && m % 2 == 1 && n % 2 == 0)
  {
    var a, ra := Digits(m);
    var b, rb := Digits(n);
  }

  /** The condition under which the payload searched for covers the one laid out later. */
  predicate Covered(h: Hull, searched: nat, final: nat) {
    h.domain in {Tri, Quad} ==> !(searched % 4 == 0 && final == searched - 1)
  }

  /** The payload laid out for the final factor fits, whatever cap the pipeline put on it, as long
      as the final number of segments is not one less than a searched multiple of four. */
  lemma PayloadFits(h: Hull, factor: real, patches: nat, final: nat)
    requires h.partitioning != Undefined && patches in GROUPS && Fits(h, factor, patches)
    requires Segments(h.partitioning, final) && final <= IntegerFactor(h.partitioning, factor)
    requires Covered(h, IntegerFactor(h.partitioning, factor), final)
    ensures StructSize(h, final, patches) <= PAYLOAD_LIMIT && RoomFor(h, final, patches)
  {
    hide IntegerFactor, MaxWorkloads, RoomFor;
    var searched := IntegerFactor(h.partitioning, factor);
    RoundsUp(h.partitioning, factor, searched);
    WorkloadBytes(h.domain, final, searched, patches);
    RoomIsSize(h, final, patches);
  }

  lemma WorkloadBytes(d: Domain, m: nat, n: nat, patches: nat)
    requires 1 <= m <= n <= 64 && 1 <= patches <= 32
    requires d in {Tri, Quad} ==> !(n % 4 == 0 && m == n - 1)
    ensures MaxWorkloads(d, m) * patches * WORKLOAD_SIZE % WORD <= MaxWorkloads(d, n) * patches * WORKLOAD_SIZE % WORD
  {
    hide MaxWorkloads;
    var a, b := MaxWorkloads(d, m), MaxWorkloads(d, n);
    FewWorkloads(d, n);
    NoMoreWorkloads(d, m, n);
    Products(a, b, 65, patches);
    Below(a * patches * WORKLOAD_SIZE, b * patches * WORKLOAD_SIZE);
  }

  lemma NoMoreWorkloads(d: Domain, m: nat, n: nat)
    requires 1 <= m <= n <= 64
    requires d in {Tri, Quad} ==> !(n % 4 == 0 && m == n - 1)
    ensures MaxWorkloads(d, m) <= MaxWorkloads(d, n)
  {
    if d in {Tri, Quad} {
      WorkloadsMonotone(d, m, n);
    }
  }

  lemma FewWorkloads(d: Domain, n: nat)
    requires 1 <= n <= 64
    ensures MaxWorkloads(d, n) <= 65
  {
    hide QuarterUp;
    QuarterUpIs(n);
  }

  lemma Below(x: nat, y: nat)
    requires x <= y < WORD
    ensures x % WORD == x && y % WORD == y
  {
  }

  lemma Products(a: nat, b: nat, c: nat, patches: nat)
    requires a <= b <= c && patches <= 32
    ensures a * patches <= b * patches <= c * 32
  {
    assert b * patches - a * patches == (b - a) * patches;
    assert b * patches <= c * patches <= c * 32;
  }

  /** In the exceptional case the layout holds one more workload per patch than the search knew of;
      it fits exactly when there is still room for them. */
  lemma UncoveredPayload(h: Hull, searched: nat, final: nat, patches: nat)
    requires 1 <= searched <= 64 && patches in GROUPS && !Covered(h, searched, final)
    ensures PayloadSize(h, final, patches) == PayloadSize(h, searched, patches) + WORKLOAD_SIZE * patches
    ensures StructSize(h, final, patches) <= PAYLOAD_LIMIT
            <==> PayloadSize(h, searched, patches) + WORKLOAD_SIZE * patches <= PAYLOAD_LIMIT
  {
    var a, b := MaxWorkloads(h.domain, searched), MaxWorkloads(h.domain, final);
    OneMore(h.domain, searched);
    FewWorkloads(h.domain, final);
    hide MaxWorkloads;
    Products(a, b, 65, patches);
    assert b * patches == a * patches + patches;
    Below(a * patches * WORKLOAD_SIZE, b * patches * WORKLOAD_SIZE);
    RoundedSize(PayloadSize(h, final, patches));
  }

  lemma RoundedSize(x: nat)
    ensures (x + 15) / 16 * 16 <= PAYLOAD_LIMIT <==> x <= PAYLOAD_LIMIT
  {
  }

  lemma OneMore(d: Domain, n: nat)
    requires d in {Tri, Quad} && 1 <= n <= 64 && n % 4 == 0
    ensures MaxWorkloads(d, n - 1) == MaxWorkloads(d, n) + 1
  {
    hide QuarterUp;
    QuarterUpIs(n);
    QuarterUpIs(n - 1);
  }

  /** No cap, one segment, or an even number of them: the caps the domain stage hands over. */
  predicate EvenCap(cap: Cap) { cap.NoCap? || cap.segments == 1 || cap.segments % 2 == 0 }

  /** The exceptional case needs integer partitioning and an odd cap. */
  lemma EvenCapCovers(h: Hull, factor: real, final: nat, cap: Cap)
    requires h.partitioning != Undefined && Segments(h.partitioning, final)
    requires h.partitioning.Integer? && EvenCap(cap) ==>
               final == IntegerFactor(h.partitioning, factor) || final == 1 || final % 2 == 0
    ensures !h.partitioning.Integer? || EvenCap(cap) ==> Covered(h, IntegerFactor(h.partitioning, factor), final)
  {
    RoundsUp(h.partitioning, factor, final);
  }

  /** The segments of the factor if the cap allows them, else the most that are within the cap, else
      the fewest there are. */
  ghost predicate BestUnder(p: Partitioning, factor: real, cap: Cap, segments: nat)
    requires p != Undefined
  {
    if cap.NoCap? || IntegerFactor(p, factor) <= cap.segments then segments == IntegerFactor(p, factor)
    else
      && Segments(p, segments) && (segments <= cap.segments || segments == IntegerFactor(p, 1.0))
      && forall m: nat :: Segments(p, m) && m <= cap.segments ==> m <= segments
  }

  /** Everything between the search and the layout: the group is recomputed, the factor may be
      capped, and the struct fits. */
  method LayOutPayload(h: Hull, maxThreads: nat, factor: real, cap: Cap)
    returns (found: Search, patches: nat, segments: nat)
    requires h.partitioning != Undefined && maxThreads >= 1
    ensures BestRoom(h, maxThreads, factor, found) && (found.GroupTooLarge? <==> maxThreads > 32)
    ensures found.Found? ==> BestUnder(h.partitioning, found.factor, cap, segments)
    ensures found.Found? ==>
      && patches * found.threadsPerPatch == 32 && Fits(h, found.factor, patches)
      && segments <= IntegerFactor(h.partitioning, found.factor)
      && (Covered(h, IntegerFactor(h.partitioning, found.factor), segments) ==>
          StructSize(h, segments, patches) <= PAYLOAD_LIMIT && RoomFor(h, segments, patches))
      && (EvenCap(cap) || !h.partitioning.Integer? ==>
          StructSize(h, segments, patches) <= PAYLOAD_LIMIT && RoomFor(h, segments, patches))
  {
    hide IntegerFactor, Fits, StructSize, NextPow2, Segments, Ladder, RoomFor, BestRoom;
    patches, segments := 0, 0;
    found := FitPayload(h, maxThreads, factor);
    if found.Found? {
      GroupRecomputed(32 / found.threadsPerPatch);
      var f;
      f, segments := FinalFactor(h.partitioning, found.factor, cap);
      var threads := NextPow2(found.threadsPerPatch);
      patches := NextPow2(32 / threads);
      RoundsUp(h.partitioning, f, segments);
      LaidOut(h, found.factor, patches, f, segments, cap);
    }
  }

  lemma LaidOut(h: Hull, factor: real, patches: nat, f: real, segments: nat, cap: Cap)
    requires h.partitioning != Undefined && patches in GROUPS && Fits(h, factor, patches)
    requires segments == IntegerFactor(h.partitioning, f) <= IntegerFactor(h.partitioning, factor)
    requires cap.NoCap? || IntegerFactor(h.partitioning, factor) <= cap.segments ==> f == factor
    requires cap.Cap? ==> segments <= cap.segments || segments == IntegerFactor(h.partitioning, 1.0)
    requires cap.Cap? && IntegerFactor(h.partitioning, factor) > cap.segments ==>
               forall m: nat :: Segments(h.partitioning, m) && m <= cap.segments ==> m <= segments
    ensures Covered(h, IntegerFactor(h.partitioning, factor), segments) || EvenCap(cap) || !h.partitioning.Integer?
            ==> StructSize(h, segments, patches) <= PAYLOAD_LIMIT && RoomFor(h, segments, patches)
  {
    RoundsUp(h.partitioning, f, segments);
    RoundsUp(h.partitioning, factor, segments);
    RoundsUp(h.partitioning, 1.0, 1);
    if h.partitioning.Integer? && cap.Cap? && IntegerFactor(h.partitioning, factor) > cap.segments {
      assert Segments(Integer, cap.segments) || cap.segments == 0;
      assert segments == cap.segments || segments == 1;
    }
    hide IntegerFactor, Fits, StructSize, RoomFor;
    EvenCapCovers(h, factor, segments, cap);
    if Covered(h, IntegerFactor(h.partitioning, factor), segments) {
      PayloadFits(h, factor, patches, segments);
    }
  }

  // ------------------------------------------------------------- the mesh

  /** Vertices the domain stage declares for triangles when an edge has `n` segments. */
  function MeshVertices(n: nat): nat {
    var points := n + 1;
    (points + 2 - points % 2) * 2 + 1
  }

  function MeshSize(registers: nat, n: nat): nat { MeshVertices(n) * (registers * 16) }

  /** Sixteen bytes for each register of each vertex, in 32 kilobytes. */
  predicate MeshFits(registers: nat, n: nat) { MeshVertices(n) * (registers * 16) <= 32768 }

  datatype Output = Points | Lines | Triangles

  function DeclaredVertices(o: Output, n: nat): nat {
    match o
    case Points => (n + 1) * 2
    case Lines => n + 1
    case Triangles => MeshVertices(n)
  }

  /** Two vertices for every point of an edge, one, or the triangles' bound. */
  lemma DeclaredAre(n: nat)
    ensures DeclaredVertices(Points, n) == 2 * n + 2 && DeclaredVertices(Lines, n) == n + 1
    ensures DeclaredVertices(Triangles, n) == 2 * n + if n % 2 == 0 then 5 else 7
  {
  }

  lemma MeshGrows(registers: nat, m: nat, n: nat)
    requires m <= n
    ensures MeshSize(registers, m) <= MeshSize(registers, n)
    ensures MeshSize(registers, 1) == MeshSize(registers, 2)
  {
    assert MeshVertices(m) <= MeshVertices(n);
    var r := registers * 16;
    assert MeshVertices(m) * r <= MeshVertices(n) * r;
  }

  /** The largest number of segments up to 64 whose mesh fits, or one if none does. */
  method DomainCap(registers: nat) returns (n: nat)
    ensures 1 <= n <= 64 && (n == 1 || n % 2 == 0)
    ensures n == 1 || MeshFits(registers, n)
    ensures forall m :: 1 <= m <= 64 && MeshFits(registers, m) ==> m <= n
  {
    n := 1;
    for t := 1 to 65
      invariant 1 <= n <= 64 && n == if t == 1 then 1 else t - 1
      invariant t > 1 ==> MeshFits(registers, n)
    {
      var x := MeshSize(registers, t);
      if x > MESH_LIMIT {
        SameMesh(n);
        forall m | 1 <= m <= 64 && MeshFits(registers, m) ensures m <= n {
          if m >= t {
            MeshGrows(registers, t, m);
          }
        }
        break;
      }
      n := t;
    }
  }

  /** An odd number of segments needs the same mesh as the next even one. */
  lemma SameMesh(n: nat)
    ensures n % 2 == 1 ==> MeshVertices(n) == MeshVertices(n + 1)
  {
  }

  /** The cap the pipeline hands to the hull and domain stages: the domain stage's own, and eight
      at most on GPUs before the ninth family. */
  method PipelineCap(registers: nat, olderGpu: bool) returns (n: nat)
    ensures 1 <= n <= (if olderGpu then 8 else 64) && (n == 1 || n % 2 == 0)
    ensures n == 1 || MeshFits(registers, n)
    ensures forall m :: 1 <= m <= (if olderGpu then 8 else 64) && MeshFits(registers, m) ==> m <= n
  {
    n := DomainCap(registers);
    if olderGpu && n > 8 {
      MeshGrows(registers, 8, n);
      n := 8;
    }
  }

  /** A whole tessellation pipeline: whatever payload the hull stage finds to fit still does when it
      is laid out for the cap that the domain stage puts on the factor. */
  method PipelinePayload(h: Hull, maxThreads: nat, factor: real, registers: nat, olderGpu: bool)
    returns (found: Search, patches: nat, cap: nat, segments: nat)
    requires h.partitioning != Undefined && maxThreads >= 1
    ensures BestRoom(h, maxThreads, factor, found) && (found.GroupTooLarge? <==> maxThreads > 32)
    ensures found.Found? ==> BestUnder(h.partitioning, found.factor, Cap(cap), segments)
    ensures 1 <= cap <= (if olderGpu then 8 else 64) && (cap == 1 || MeshFits(registers, cap))
    ensures forall m :: 1 <= m <= (if olderGpu then 8 else 64) && MeshFits(registers, m) ==> m <= cap
    ensures found.Found? ==>
      && patches * found.threadsPerPatch == 32 && RoomFor(h, segments, patches)
      && StructSize(h, segments, patches) <= PAYLOAD_LIMIT
  {
    hide StructSize, IntegerFactor, Fits, Covered, RoomFor, BestRoom, BestUnder, MeshFits;
    cap := PipelineCap(registers, olderGpu);
    found, patches, segments := LayOutPayload(h, maxThreads, factor, Cap(cap));
  }

  /** With the cap of the domain stage every declared mesh fits exactly when a mesh of one segment
      does, even where the partitioning cannot go down to the cap. */
  method CapMesh(p: Partitioning, factor: real, registers: nat, olderGpu: bool, o: Output) returns (segments: nat)
    requires p != Undefined
    ensures MeshFits(registers, 1) ==> DeclaredVertices(o, segments) * (registers * 16) <= 32768
    ensures o.Triangles? && !MeshFits(registers, 1) ==>
      DeclaredVertices(o, segments) * (registers * 16) > 32768
  {
    var cap := PipelineCap(registers, olderGpu);
    var f;
    f, segments := FinalFactor(p, factor, Cap(cap));
    RoundsUp(p, 1.0, 2);
    RoundsUp(p, f, segments);
    MeshGrows(registers, 1, segments);
    if segments > cap {
      MeshGrows(registers, segments, 2);
    } else {
      MeshGrows(registers, segments, cap);
    }
    FewerDeclared(o, segments, registers * 16);
  }

  lemma FewerDeclared(o: Output, n: nat, bytes: nat)
    ensures DeclaredVertices(o, n) * bytes <= MeshVertices(n) * bytes
  {
    assert DeclaredVertices(o, n) <= MeshVertices(n);
  }
}
