/** Binding shader resources through a root signature: the fields of the argument buffer its
    parameters take, and the descriptor slot a shader register resolves to. */
module RootBinding {
  import opened Basics

  const APPEND := WORD - 1      // place a range behind the one before it
  const UNBOUNDED := WORD - 1   // a range or resource without a size
  const DIRECT := WORD - 1      // the field itself is the descriptor
  const INLINE := WORD - 2      // the field itself is the first constant

  datatype Kind = SRV | UAV | CBV | Sampler
  datatype Stage = VertexStage | HullStage | DomainStage | GeometryStage | PixelStage | ComputeStage
  datatype Visibility = All | Only(stage: Stage)

  predicate Visible(v: Visibility, stage: Stage) {
    v.All? || (v.stage == stage && stage != ComputeStage)
  }

  datatype Range = Range(kind: Kind, base: nat, count: nat, space: nat, offset: nat)

  datatype Parameter =
    | Table(visibility: Visibility, ranges: seq<Range>)
    | Constants(visibility: Visibility, register: nat, space: nat, count: nat)
    | Root(kind: Kind, visibility: Visibility, register: nat, space: nat)

  datatype StaticSampler = StaticSampler(visibility: Visibility, register: nat, space: nat)

  /** A resource of the shader: registers from `lower`, `size` of them. */
  datatype Resource = Resource(kind: Kind, id: nat, lower: nat, size: nat, space: nat)

  datatype Binding = Binding(field: nat, offset: nat)

  // ------------------------------------------------------------- fields of the argument buffer

  datatype Field = Buffer(location: nat) | Integer64(location: nat)

  class ArgumentBuffer {
    var fields: seq<Field>

    constructor ()
      ensures fields == []
    {
      fields := [];
    }

    method DefineBuffer(location: nat) returns (index: nat)
      modifies this
      ensures index == |old(fields)|
      ensures fields == old(fields) + [Buffer(if location == WORD - 1 then index else location)]
    {
      index := |fields|;
      fields := fields + [Buffer(if location == WORD - 1 then index else location)];
    }

    method DefineInteger64(location: nat) returns (index: nat)
      modifies this
      ensures index == |old(fields)|
      ensures fields == old(fields) + [Integer64(if location == WORD - 1 then index else location)]
    {
      index := |fields|;
      fields := fields + [Integer64(if location == WORD - 1 then index else location)];
    }
  }

  /** Two constants share a field; there is a field even for none. */
  function FieldCount(p: Parameter): nat {
    if p.Constants? && p.count > 2 then (p.count + 1) / 2 else 1
  }

  /** Root constants are four bytes each, fields eight: there are fields enough for all of them, and no
      field more than that but the first. */
  lemma ConstantsFit(p: Parameter)
    ensures p.Constants? ==>
      8 * FieldCount(p) >= 4 * p.count && (FieldCount(p) == 1 || 8 * (FieldCount(p) - 1) < 4 * p.count)
    ensures FieldCount(p) >= 1 && (!p.Constants? ==> FieldCount(p) == 1)
  {
  }

  /** The first field of parameter `i`: the sizes of the ones before it. */
  function FirstField(ps: seq<Parameter>, i: nat): nat
    requires i <= |ps|
  {
    if i == 0 then 0 else FirstField(ps, i - 1) + FieldCount(ps[i - 1])
  }

  /** Every field is at the location of its index; visibility plays no part. */
  ghost predicate LaidOut(fields: seq<Field>, ps: seq<Parameter>, n: nat)
    requires n <= |ps|
  {
    && |fields| == FirstField(ps, n)
    && (forall j :: 0 <= j < |fields| ==> fields[j].location == j)
    && forall i :: 0 <= i < n ==> FieldsOf(fields, ps, i)
  }

  predicate FieldsOf(fields: seq<Field>, ps: seq<Parameter>, i: nat)
    requires i < |ps|
  {
    && FirstField(ps, i) + FieldCount(ps[i]) <= |fields|
    && forall f :: f in fields[FirstField(ps, i)..FirstField(ps, i) + FieldCount(ps[i])] ==>
         (f.Integer64? <==> ps[i].Constants?)
  }

  // ------------------------------------------------------------- what matches a resource

  /** The registers of a resource are among those of a range, in 32-bit arithmetic. */
  predicate Contained(x: Resource, r: Range) {
    && r.base <= x.lower
    && (r.count == UNBOUNDED || x.size == UNBOUNDED || (x.lower + x.size) % WORD <= (r.base + r.count) % WORD)
  }

  function PlacedAt(r: Range, running: nat): nat { if r.offset == APPEND then running else r.offset }

  /** The running offset behind a list of ranges. */
  function Running(ranges: seq<Range>, n: nat): nat
    requires n <= |ranges|
  {
    if n == 0 then 0 else (PlacedAt(ranges[n - 1], Running(ranges, n - 1)) + ranges[n - 1].count) % WORD
  }

  /** The first slot of a range in its table. */
  function StartSlot(ranges: seq<Range>, i: nat): nat
    requires i < |ranges|
  {
    PlacedAt(ranges[i], Running(ranges, i))
  }

  function RangeMatch(r: Range, start: nat, field: nat, x: Resource): Option<Binding> {
    if x.kind == r.kind && x.space == r.space && Contained(x, r)
    then Some(Binding(field, (start + (x.lower - r.base)) % WORD)) else None
  }

  function RootMatch(p: Parameter, field: nat, x: Resource): Option<Binding> {
    match p
    case Table(_, _) => None
    case Constants(_, register, space, _) =>
      if x.kind == CBV && x.lower == register && x.space == space then Some(Binding(field, INLINE)) else None
    case Root(kind, _, register, space) =>
      if x.kind == kind && kind != Sampler && x.lower == register && x.space == space
      then Some(Binding(field, DIRECT)) else None
  }

  function StaticMatch(s: StaticSampler, i: nat, x: Resource): Option<Binding> {
    if x.kind == Sampler && x.space == s.space && x.lower == s.register then Some(Binding(i, DIRECT)) else None
  }

  /** Later matches win. */
  function Later(earlier: Option<Binding>, later: Option<Binding>): Option<Binding> {
    if later.Some? then later else earlier
  }

  function TableBinding(ranges: seq<Range>, n: nat, field: nat, x: Resource): Option<Binding>
    requires n <= |ranges|
  {
    if n == 0 then None
    else Later(TableBinding(ranges, n - 1, field, x), RangeMatch(ranges[n - 1], StartSlot(ranges, n - 1), field, x))
  }

  function ParameterBinding(p: Parameter, field: nat, stage: Stage, x: Resource): Option<Binding> {
    if !Visible(p.visibility, stage) then None
    else if p.Table? then TableBinding(p.ranges, |p.ranges|, field, x)
    else RootMatch(p, field, x)
  }

  /** The binding of a resource after the first `n` parameters. */
  function Bound(ps: seq<Parameter>, n: nat, stage: Stage, x: Resource): Option<Binding>
    requires n <= |ps|
  {
    if n == 0 then None
    else Later(Bound(ps, n - 1, stage, x), ParameterBinding(ps[n - 1], FirstField(ps, n - 1), stage, x))
  }

  function StaticBound(samplers: seq<StaticSampler>, n: nat, stage: Stage, x: Resource): Option<Binding>
    requires n <= |samplers|
  {
    if n == 0 then None
    else
      var s := samplers[n - 1];
      Later(StaticBound(samplers, n - 1, stage, x),
            if Visible(s.visibility, stage) then StaticMatch(s, n - 1, x) else None)
  }

  // ------------------------------------------------------------- what a binding means

  /** Register `q` is one of the range's; an unbounded range has all from its base on. */
  predicate Reaches(r: Range, q: nat) { r.base <= q && (r.count == 0xFFFF_FFFF || q < r.base + r.count) }

  /** The range is of the resource's kind and register space, and has all of its registers. */
  predicate Serves(r: Range, x: Resource) {
    && r.kind == x.kind && r.space == x.space
    && if x.size == 0xFFFF_FFFF then r.base <= x.lower
       else forall q :: x.lower <= q < x.lower + x.size ==> Reaches(r, q)
  }

  /** A resource with at least one register, and registers that are 32-bit numbers. */
  predicate Plain(x: Resource) { 0 < x.size && (x.size == 0xFFFF_FFFF || x.lower + x.size < 0x1_0000_0000) }

  predicate PlainRanges(ranges: seq<Range>) {
    forall i :: 0 <= i < |ranges| ==> ranges[i].count == 0xFFFF_FFFF || ranges[i].base + ranges[i].count < 0x1_0000_0000
  }

  /** The last of the first `n` ranges that serves the resource. */
  predicate LastServing(ranges: seq<Range>, n: nat, i: nat, x: Resource)
    requires n <= |ranges|
  {
    i < n && Serves(ranges[i], x) && forall j :: i < j < n ==> !Serves(ranges[j], x)
  }

  /** A range is placed at its offset or, if that is left open, right behind the range before it. */
  function FirstSlot(ranges: seq<Range>, i: nat): nat
    requires i < |ranges|
  {
    if ranges[i].offset != 0xFFFF_FFFF then ranges[i].offset
    else if i == 0 then 0
    else (FirstSlot(ranges, i - 1) + ranges[i - 1].count) % 0x1_0000_0000
  }

  lemma StartIsFirst(ranges: seq<Range>, i: nat)
    requires i < |ranges|
    ensures StartSlot(ranges, i) == FirstSlot(ranges, i)
  {
    if i > 0 {
      StartIsFirst(ranges, i - 1);
    }
  }

  /** Where range `i` of a table puts the resource: the range's first slot, and as far behind it as the
      resource is behind the range's first register. */
  function SlotIn(ranges: seq<Range>, i: nat, x: Resource): int
    requires i < |ranges|
  {
    (FirstSlot(ranges, i) + (x.lower - ranges[i].base)) % 0x1_0000_0000
  }

  /** What a table of which the first `n` ranges are looked at makes of a binding. */
  ghost predicate TableMakes(ranges: seq<Range>, n: nat, field: nat, x: Resource, before: Option<Binding>,
                             after: Option<Binding>)
    requires n <= |ranges|
  {
    if exists i :: 0 <= i < n && Serves(ranges[i], x) then
      exists i :: LastServing(ranges, n, i, x) && after == Some(Binding(field, SlotIn(ranges, i, x)))
    else after == before
  }

  /** In plain registers the code's test of a range is what serving means. */
  lemma MatchIsServing(r: Range, start: nat, field: nat, x: Resource)
    requires Plain(x) && (r.count == UNBOUNDED || r.base + r.count < WORD)
    ensures RangeMatch(r, start, field, x).Some? <==> Serves(r, x)
  {
    if x.size != UNBOUNDED && Serves(r, x) {
      assert Reaches(r, x.lower) && Reaches(r, x.lower + x.size - 1);
    }
  }

  lemma {:induction false} TableMeans(ranges: seq<Range>, n: nat, field: nat, x: Resource, before: Option<Binding>)
    requires n <= |ranges| && Plain(x) && PlainRanges(ranges)
    ensures TableMakes(ranges, n, field, x, before, Later(before, TableBinding(ranges, n, field, x)))
  {
    hide RangeMatch, Serves, StartSlot, FirstSlot;
    if n > 0 {
      var r, start := ranges[n - 1], StartSlot(ranges, n - 1);
      TableMeans(ranges, n - 1, field, x, before);
      MatchIsServing(r, start, field, x);
      if Serves(r, x) {
        MatchPlaces(r, start, field, x);
        StartIsFirst(ranges, n - 1);
        assert LastServing(ranges, n, n - 1, x);
      } else if exists i :: 0 <= i < n - 1 && Serves(ranges[i], x) {
        var i :| LastServing(ranges, n - 1, i, x)
                 && Later(before, TableBinding(ranges, n - 1, field, x)) == Some(Binding(field, SlotIn(ranges, i, x)));
        assert LastServing(ranges, n, i, x);
      }
    }
  }

  lemma MatchPlaces(r: Range, start: nat, field: nat, x: Resource)
    requires RangeMatch(r, start, field, x).Some?
    ensures r.base <= x.lower
    ensures RangeMatch(r, start, field, x).value == Binding(field, (start + (x.lower - r.base)) % WORD)
  {
  }

  /** A stage sees what is for all stages and what is for itself; compute shaders only the former. */
  predicate Sees(stage: Stage, v: Visibility) {
    match stage
    case ComputeStage => v == All
    case _ => v == All || v == Only(stage)
  }

  /** A parameter has something for the resource. */
  ghost predicate Offers(p: Parameter, stage: Stage, x: Resource) {
    && Sees(stage, p.visibility)
    && match p
       case Table(_, ranges) => exists i :: 0 <= i < |ranges| && Serves(ranges[i], x)
       case Constants(_, register, space, _) => x.kind == CBV && x.lower == register && x.space == space
       case Root(kind, _, register, space) =>
         x.kind == kind && kind in {CBV, SRV, UAV} && x.lower == register && x.space == space
  }

  /** What the field of the parameter is read as: a table of descriptors by slot, the constants
      themselves, or the one descriptor. */
  ghost predicate ReadAs(p: Parameter, x: Resource, offset: nat) {
    match p
    case Table(_, ranges) => exists i :: LastServing(ranges, |ranges|, i, x) && offset == SlotIn(ranges, i, x)
    case Constants(_, _, _, _) => offset == 0xFFFF_FFFE
    case Root(_, _, _, _) => offset == 0xFFFF_FFFF
  }

  ghost predicate LastOffer(ps: seq<Parameter>, n: nat, i: nat, stage: Stage, x: Resource)
    requires n <= |ps|
  {
    i < n && Offers(ps[i], stage, x) && forall j :: i < j < n ==> !Offers(ps[j], stage, x)
  }

  ghost predicate MadeBy(ps: seq<Parameter>, i: nat, x: Resource, b: Binding)
    requires i < |ps|
  {
    b.field == FirstField(ps, i) && ReadAs(ps[i], x, b.offset)
  }

  /** What the first `n` parameters make of a resource: the last one that has something for it. */
  ghost predicate ParametersMake(ps: seq<Parameter>, n: nat, stage: Stage, x: Resource, b: Option<Binding>)
    requires n <= |ps|
  {
    if exists i :: 0 <= i < n && Offers(ps[i], stage, x) then
      b.Some? && exists i: nat :: LastOffer(ps, n, i, stage, x) && MadeBy(ps, i, x, b.value)
    else b.None?
  }

  predicate PlainParameters(ps: seq<Parameter>) {
    forall i :: 0 <= i < |ps| && ps[i].Table? ==> PlainRanges(ps[i].ranges)
  }

  lemma ParameterMeans(p: Parameter, field: nat, stage: Stage, x: Resource)
    requires Plain(x) && (p.Table? ==> PlainRanges(p.ranges))
    ensures var b := ParameterBinding(p, field, stage, x);
            && (b.Some? <==> Offers(p, stage, x))
            && (b.Some? ==> b.value.field == field && ReadAs(p, x, b.value.offset))
  {
    if p.Table? {
      hide Serves, StartSlot, TableBinding, SlotIn;
      TableMeans(p.ranges, |p.ranges|, field, x, None);
    }
  }

  lemma {:induction false} ParametersMean(ps: seq<Parameter>, n: nat, stage: Stage, x: Resource)
    requires n <= |ps| && Plain(x) && PlainParameters(ps)
    ensures ParametersMake(ps, n, stage, x, Bound(ps, n, stage, x))
  {
    hide ParameterBinding, Offers, ReadAs, FirstField, ParametersMake;
    if n == 0 {
      NoParameters(ps, stage, x);
    } else {
      ParametersMean(ps, n - 1, stage, x);
      ParameterMeans(ps[n - 1], FirstField(ps, n - 1), stage, x);
      OneMoreParameter(ps, n, stage, x, Bound(ps, n - 1, stage, x),
                       ParameterBinding(ps[n - 1], FirstField(ps, n - 1), stage, x));
    }
  }

  lemma NoParameters(ps: seq<Parameter>, stage: Stage, x: Resource)
    ensures ParametersMake(ps, 0, stage, x, None)
  {
  }

  lemma OneMoreParameter(ps: seq<Parameter>, n: nat, stage: Stage, x: Resource, before: Option<Binding>,
                         last: Option<Binding>)
    requires 0 < n <= |ps| && ParametersMake(ps, n - 1, stage, x, before)
    requires last.Some? <==> Offers(ps[n - 1], stage, x)
    requires last.Some? ==> MadeBy(ps, n - 1, x, last.value)
    ensures ParametersMake(ps, n, stage, x, Later(before, last))
  {
    hide Offers, MadeBy;
    if last.Some? {
      assert LastOffer(ps, n, n - 1, stage, x);
    } else if before.Some? {
      var i: nat :| LastOffer(ps, n - 1, i, stage, x) && MadeBy(ps, i, x, before.value);
      assert LastOffer(ps, n, i, stage, x);
    }
  }

  /** A static sampler is the resource. */
  predicate IsSampler(s: StaticSampler, stage: Stage, x: Resource) {
    x.kind == Sampler && Sees(stage, s.visibility) && x.space == s.space && x.lower == s.register
  }

  /** The whole outcome for a resource: the last static sampler that is it, else what the parameters make. */
  ghost predicate Outcome(ps: seq<Parameter>, samplers: seq<StaticSampler>, stage: Stage, x: Resource,
                          b: Option<Binding>) {
    if exists i :: 0 <= i < |samplers| && IsSampler(samplers[i], stage, x) then
      exists i: nat :: LastSampler(samplers, |samplers|, i, stage, x) && b == Some(Binding(i, 0xFFFF_FFFF))
    else ParametersMake(ps, |ps|, stage, x, b)
  }

  predicate LastSampler(samplers: seq<StaticSampler>, n: nat, i: nat, stage: Stage, x: Resource)
    requires n <= |samplers|
  {
    i < n && IsSampler(samplers[i], stage, x) && forall j :: i < j < n ==> !IsSampler(samplers[j], stage, x)
  }

  lemma SamplerMatches(s: StaticSampler, i: nat, stage: Stage, x: Resource)
    ensures Visible(s.visibility, stage) && StaticMatch(s, i, x).Some? <==> IsSampler(s, stage, x)
    ensures StaticMatch(s, i, x).Some? ==> StaticMatch(s, i, x) == Some(Binding(i, 0xFFFF_FFFF))
  {
  }

  lemma {:induction false} SamplersMean(samplers: seq<StaticSampler>, n: nat, stage: Stage, x: Resource)
    requires n <= |samplers|
    ensures var b := StaticBound(samplers, n, stage, x);
            && (b.Some? <==> exists i :: 0 <= i < n && IsSampler(samplers[i], stage, x))
            && (b.Some? ==> exists i: nat ::
                  LastSampler(samplers, n, i, stage, x) && b == Some(Binding(i, 0xFFFF_FFFF)))
  {
    hide StaticMatch, IsSampler, Visible;
    if n > 0 {
      var b := StaticBound(samplers, n - 1, stage, x);
      SamplersMean(samplers, n - 1, stage, x);
      SamplerMatches(samplers[n - 1], n - 1, stage, x);
      if IsSampler(samplers[n - 1], stage, x) {
        assert LastSampler(samplers, n, n - 1, stage, x);
      } else if b.Some? {
        var i: nat :| LastSampler(samplers, n - 1, i, stage, x) && b == Some(Binding(i, 0xFFFF_FFFF));
        assert LastSampler(samplers, n, i, stage, x);
      }
    }
  }

  lemma OutcomeReached(ps: seq<Parameter>, samplers: seq<StaticSampler>, stage: Stage, x: Resource)
    requires Plain(x) && PlainParameters(ps)
    ensures Outcome(ps, samplers, stage, x,
                    Later(Bound(ps, |ps|, stage, x), StaticBound(samplers, |samplers|, stage, x)))
  {
    hide Bound, StaticBound, IsSampler, ParametersMake, LastSampler;
    ParametersMean(ps, |ps|, stage, x);
    SamplersMean(samplers, |samplers|, stage, x);
  }

  // ------------------------------------------------------------- setting up the binding map

  /** Resources are told apart by their kind and range id. */
  predicate Distinct(resources: seq<Resource>) {
    forall i, j :: 0 <= i < j < |resources| ==>
      resources[i].kind != resources[j].kind || resources[i].id != resources[j].id
  }

  class BindingMap {
    var bound: map<(Kind, nat), Binding>

    constructor ()
      ensures bound == map[]
    {
      bound := map[];
    }

    function Get(x: Resource): Option<Binding>
      reads this
    {
      if (x.kind, x.id) in bound then Some(bound[(x.kind, x.id)]) else None
    }

    /** Bind each resource that matches, replacing an earlier binding. */
    method BindAll(resources: seq<Resource>, match_: Resource -> Option<Binding>)
      requires Distinct(resources)
      modifies this
      ensures forall x :: x in resources ==> Get(x) == Later(old(Get(x)), match_(x))
    {
      for i := 0 to |resources|
        invariant forall j :: 0 <= j < i ==> Get(resources[j]) == Later(old(Get(resources[j])), match_(resources[j]))
        invariant forall j :: i <= j < |resources| ==> Get(resources[j]) == old(Get(resources[j]))
      {
        var x := resources[i];
        var b := match_(x);
        if b.Some? {
          bound := bound[(x.kind, x.id) := b.value];
        }
      }
    }

    method BindTable(resources: seq<Resource>, ranges: seq<Range>, field: nat)
      requires Distinct(resources)
      modifies this
      ensures forall x :: x in resources ==> Get(x) == Later(old(Get(x)), TableBinding(ranges, |ranges|, field, x))
      ensures PlainRanges(ranges) ==> forall x :: x in resources && Plain(x) ==>
        TableMakes(ranges, |ranges|, field, x, old(Get(x)), Get(x))
    {
      hide RangeMatch, Serves;
      var running := 0;
      for i := 0 to |ranges|
        invariant running == Running(ranges, i)
        invariant forall x :: x in resources ==> Get(x) == Later(old(Get(x)), TableBinding(ranges, i, field, x))
      {
        var r := ranges[i];
        var start := if r.offset == APPEND then running else r.offset;
        running := (start + r.count) % WORD;
        BindAll(resources, x => RangeMatch(r, start, field, x));
      }
      if PlainRanges(ranges) {
        forall x | x in resources && Plain(x) ensures TableMakes(ranges, |ranges|, field, x, old(Get(x)), Get(x)) {
          TableMeans(ranges, |ranges|, field, x, old(Get(x)));
        }
      }
    }

    /** The fields of every parameter are defined whether or not the stage sees it. */
    method Setup(buffer: ArgumentBuffer, resources: seq<Resource>, ps: seq<Parameter>, samplers: seq<StaticSampler>,
                 stage: Stage)
      requires Distinct(resources) && bound == map[] && buffer.fields == [] && FirstField(ps, |ps|) < WORD
      modifies this, buffer
      ensures LaidOut(buffer.fields, ps, |ps|)
      ensures forall x :: x in resources ==>
        Get(x) == Later(Bound(ps, |ps|, stage, x), StaticBound(samplers, |samplers|, stage, x))
      ensures PlainParameters(ps) ==> forall x :: x in resources && Plain(x) ==>
        Outcome(ps, samplers, stage, x, Get(x))
    {
      hide Outcome, PlainParameters;
      var location := 0;
      for i := 0 to |ps|
        invariant LaidOut(buffer.fields, ps, i) && location == |buffer.fields|
        invariant forall x :: x in resources ==> Get(x) == Bound(ps, i, stage, x)
      {
        var p := ps[i];
        ghost var before := buffer.fields;
        var field := DefineFields(buffer, p, location);
        OneMoreLaidOut(before, buffer.fields, ps, i);
        location := |buffer.fields|;
        if Visible(p.visibility, stage) {
          if p.Table? {
            BindTable(resources, p.ranges, field);
          } else {
            BindAll(resources, x => RootMatch(p, field, x));
          }
        }
      }
      for i := 0 to |samplers|
        invariant LaidOut(buffer.fields, ps, |ps|)
        invariant forall x :: x in resources ==>
          Get(x) == Later(Bound(ps, |ps|, stage, x), StaticBound(samplers, i, stage, x))
      {
        var s := samplers[i];
        BindAll(resources, x => if Visible(s.visibility, stage) then StaticMatch(s, i, x) else None);
      }
      if PlainParameters(ps) {
        forall x | x in resources && Plain(x) ensures Outcome(ps, samplers, stage, x, Get(x)) {
          OutcomeReached(ps, samplers, stage, x);
        }
      }
    }
  }

  lemma OneMoreLaidOut(before: seq<Field>, fields: seq<Field>, ps: seq<Parameter>, n: nat)
    requires n < |ps| && LaidOut(before, ps, n) && before <= fields && |fields| == |before| + FieldCount(ps[n])
    requires forall j :: |before| <= j < |fields| ==>
      fields[j].location == j && (fields[j].Integer64? <==> ps[n].Constants?)
    ensures LaidOut(fields, ps, n + 1)
  {
    assert before == fields[..|before|];
    forall i | 0 <= i < n + 1 ensures FieldsOf(fields, ps, i) {
      if i < n {
        assert FieldsOf(before, ps, i);
        var from, to := FirstField(ps, i), FirstField(ps, i) + FieldCount(ps[i]);
        assert fields[from..to] == before[from..to];
      }
    }
  }

  method DefineFields(buffer: ArgumentBuffer, p: Parameter, location: nat) returns (first: nat)
    requires location == |buffer.fields|
    modifies buffer
    ensures first == |old(buffer.fields)| && |buffer.fields| == first + FieldCount(p)
    ensures old(buffer.fields) <= buffer.fields
    ensures forall j :: first <= j < |buffer.fields| ==>
      buffer.fields[j].location == j && (buffer.fields[j].Integer64? <==> p.Constants?)
  {
    if p.Constants? {
      var qwords := p.count / 2 + p.count % 2;
      first := buffer.DefineInteger64(location);
      var x := 1;
      while x < qwords
        invariant 1 <= x && (x <= qwords || x == 1)
        invariant |buffer.fields| == first + x && old(buffer.fields) <= buffer.fields
        invariant forall j :: first <= j < |buffer.fields| ==>
          buffer.fields[j].location == j && buffer.fields[j].Integer64?
      {
        var _ := buffer.DefineInteger64(location + x);
        x := x + 1;
      }
    } else {
      first := buffer.DefineBuffer(location);
    }
  }

  // ------------------------------------------------------------- the theorems

  /** The slots of a table's first `n` ranges do not wrap around 32 bits. */
  predicate Fits(ranges: seq<Range>, n: nat)
    requires n <= |ranges|
  {
    forall i :: 0 <= i < n ==> ranges[i].count < UNBOUNDED && StartSlot(ranges, i) + ranges[i].count < INLINE
  }

  predicate Registers(r: Range) { r.base + r.count < WORD }

  /** Without overflow a bounded resource is contained in a bounded range exactly if all its
      registers are registers of the range. */
  lemma ContainedMeaning(x: Resource, r: Range)
    requires 0 < x.size < UNBOUNDED && r.count < UNBOUNDED && Registers(r) && x.lower + x.size < WORD
    ensures Contained(x, r) <==> forall q :: x.lower <= q < x.lower + x.size ==> InRange(q, r)
  {
    if forall q :: x.lower <= q < x.lower + x.size ==> InRange(q, r) {
      assert InRange(x.lower, r);
      assert InRange(x.lower + x.size - 1, r);
    }
  }

  predicate InRange(q: int, r: Range) { r.base <= q < r.base + r.count }

  /** The descriptor a shader loads for register `q` of a resource: 32-bit arithmetic on the
      stored offset. */
  function Slot(b: Binding, x: Resource, q: nat): nat {
    ((q - x.lower) % WORD + b.offset) % WORD
  }

  /** Register `q` of a resource bound through a range, bounded or not, resolves to the range's start
      slot plus its distance from the range's base register, in 32 bits; as long as that does not
      wrap it is inside the range's slots, and below the two reserved offsets the binding is read as
      a slot at all. */
  lemma SlotOfRegister(ranges: seq<Range>, i: nat, field: nat, x: Resource, q: nat)
    requires i < |ranges| && RangeMatch(ranges[i], StartSlot(ranges, i), field, x).Some? && x.lower <= q
    ensures var b := RangeMatch(ranges[i], StartSlot(ranges, i), field, x).value;
            var slot := StartSlot(ranges, i) + (q - ranges[i].base);
            && b.field == field && Slot(b, x, q) == slot % WORD
            && (slot < WORD ==> StartSlot(ranges, i) <= Slot(b, x, q) == slot)
            && (slot < INLINE ==> b.offset !in {DIRECT, INLINE})
            && (slot < WORD && InRange(q, ranges[i]) ==> Slot(b, x, q) < StartSlot(ranges, i) + ranges[i].count)
  {
    hide StartSlot, Contained;
    assert ranges[i].base <= x.lower by { ContainedBase(x, ranges[i]); }
    var start := StartSlot(ranges, i);
    AddWrapped(q - x.lower, start + (x.lower - ranges[i].base));
    if start + (q - ranges[i].base) < WORD {
      NoWrap(start + (x.lower - ranges[i].base));
      NoWrap(start + (q - ranges[i].base));
    }
  }

  lemma AddWrapped(a: nat, b: nat)
    ensures (a % WORD + b % WORD) % WORD == (a + b) % WORD
  {
  }

  lemma ContainedBase(x: Resource, r: Range)
    requires Contained(x, r)
    ensures r.base <= x.lower
  {
  }

  lemma NoWrap(n: nat)
    requires n < WORD
    ensures n % WORD == n
  {
  }

  predicate AllAppended(ranges: seq<Range>) { forall i :: 0 <= i < |ranges| ==> ranges[i].offset == APPEND }

  lemma {:induction false} AppendedStarts(ranges: seq<Range>, i: nat, j: nat)
    requires AllAppended(ranges) && i < j < |ranges| && Fits(ranges, j)
    ensures StartSlot(ranges, i) + ranges[i].count <= StartSlot(ranges, j)
    decreases j
  {
    assert StartSlot(ranges, j) == StartSlot(ranges, j - 1) + ranges[j - 1].count;
    if i < j - 1 {
      AppendedStarts(ranges, i, j - 1);
    }
  }

  /** Register `q` of range `i` has a slot of its own: it does not wrap, and is one of the range's. */
  predicate HasSlot(ranges: seq<Range>, i: nat, q: nat)
    requires i < |ranges|
  {
    && ranges[i].base <= q && StartSlot(ranges, i) + (q - ranges[i].base) < INLINE
    && (ranges[i].count < UNBOUNDED ==> InRange(q, ranges[i]))
  }

  /** In a table that only appends, and in which only the last range may be unbounded, different
      registers never share a slot. */
  lemma SlotsNotShared(ranges: seq<Range>, field: nat, i: nat, x: Resource, q: nat, j: nat, y: Resource, r: nat)
    requires AllAppended(ranges) && i < |ranges| && j < |ranges| && Fits(ranges, |ranges| - 1)
    requires RangeMatch(ranges[i], StartSlot(ranges, i), field, x).Some? && x.lower <= q && HasSlot(ranges, i, q)
    requires RangeMatch(ranges[j], StartSlot(ranges, j), field, y).Some? && y.lower <= r && HasSlot(ranges, j, r)
    ensures var a := RangeMatch(ranges[i], StartSlot(ranges, i), field, x).value;
            var b := RangeMatch(ranges[j], StartSlot(ranges, j), field, y).value;
            (Slot(a, x, q) == Slot(b, y, r)) <==> (i == j && q == r)
  {
    hide RangeMatch, Slot, StartSlot;
    SlotOfRegister(ranges, i, field, x, q);
    SlotOfRegister(ranges, j, field, y, r);
    if i < j {
      AppendedStarts(ranges, i, j);
    } else if j < i {
      AppendedStarts(ranges, j, i);
    }
  }

  /** A table binds a resource through the last of its ranges that contains it. */
  lemma {:induction false} LastRangeWins(ranges: seq<Range>, n: nat, field: nat, x: Resource)
    requires n <= |ranges|
    ensures TableBinding(ranges, n, field, x).None? <==> forall i :: 0 <= i < n ==>
      RangeMatch(ranges[i], StartSlot(ranges, i), field, x).None?
    ensures TableBinding(ranges, n, field, x).Some? ==>
      exists i :: 0 <= i < n
        && TableBinding(ranges, n, field, x) == RangeMatch(ranges[i], StartSlot(ranges, i), field, x)
               && forall j :: i < j < n ==> RangeMatch(ranges[j], StartSlot(ranges, j), field, x).None?
  {
    hide RangeMatch, StartSlot;
    if n > 0 {
      LastRangeWins(ranges, n - 1, field, x);
    }
  }

  /** A binding through a parameter names that parameter's first field, and the stage sees it. */
  lemma {:induction false} LastParameterWins(ps: seq<Parameter>, n: nat, stage: Stage, x: Resource)
    requires n <= |ps|
    ensures Bound(ps, n, stage, x).None? <==> forall i :: 0 <= i < n ==>
      ParameterBinding(ps[i], FirstField(ps, i), stage, x).None?
    ensures Bound(ps, n, stage, x).Some? ==>
      exists i :: 0 <= i < n && Visible(ps[i].visibility, stage)
        && Bound(ps, n, stage, x).value.field == FirstField(ps, i)
               && Bound(ps, n, stage, x) == ParameterBinding(ps[i], FirstField(ps, i), stage, x)
               && forall j :: i < j < n ==> ParameterBinding(ps[j], FirstField(ps, j), stage, x).None?
  {
    hide ParameterBinding, FirstField;
    if n > 0 {
      LastParameterWins(ps, n - 1, stage, x);
      NamesField(ps[n - 1], FirstField(ps, n - 1), stage, x);
    }
  }

  lemma NamesField(p: Parameter, field: nat, stage: Stage, x: Resource)
    ensures ParameterBinding(p, field, stage, x).Some? ==>
      Visible(p.visibility, stage) && ParameterBinding(p, field, stage, x).value.field == field
  {
    if p.Table? {
      LastRangeWins(p.ranges, |p.ranges|, field, x);
    }
  }
}
