/** Operand tokens of the tokenized shader format: bit fields, and the recursive parser, since an
    index of an operand can be an operand itself.  Parsing undoes encoding and takes no token more. */
module OperandTokens {

  type Token = bv32

  // ------------------------------------------------------------- bit fields

  const INDEXABLE_TEMP: Token := 3
  const IMMEDIATE32: Token := 4
  const IMMEDIATE64: Token := 5
  const ONE_COMPONENT: Token := 1
  const FOUR_COMPONENTS: Token := 2
  const MODIFIER: Token := 1

  function ComponentsOf(t: Token): Token { t & 0x0000_0003 }
  function ModeOf(t: Token): Token { (t & 0x0000_000c) >> 2 }
  function MaskOf(t: Token): Token { t & 0x0000_00f0 }
  function SwizzleXOf(t: Token): Token { (t >> 4) & 3 }
  function SwizzleYOf(t: Token): Token { (t >> 6) & 3 }
  function SwizzleZOf(t: Token): Token { (t >> 8) & 3 }
  function SwizzleWOf(t: Token): Token { (t >> 10) & 3 }
  function SelectedOf(t: Token): Token { (t & 0x0000_0030) >> 4 }
  function TypeOf(t: Token): Token { (t & 0x000f_f000) >> 12 }
  function DimensionOf(t: Token): Token { (t & 0x0030_0000) >> 20 }
  function FirstIndexOf(t: Token): Token { (t & 0x00c0_0000) >> 22 }
  function SecondIndexOf(t: Token): Token { (t & 0x0600_0000) >> 25 }
  function ThirdIndexOf(t: Token): Token { (t & 0x3000_0000) >> 28 }
  function ExtendedOf(t: Token): bool { (t & 0x8000_0000) >> 31 != 0 }

  function ExtensionTypeOf(t: Token): Token { t & 0x0000_003f }
  function ModifierOf(t: Token): Token { (t & 0x0000_3fc0) >> 6 }
  function PrecisionOf(t: Token): Token { (t & 0x0001_c000) >> 14 }
  function NonUniformOf(t: Token): Token { (t & 0x0002_0000) >> 17 }

  function Swizzled(x: Token, y: Token, z: Token, w: Token): Token {
    ((x & 3) | ((y & 3) << 2) | ((z & 3) << 4) | ((w & 3) << 6)) << 4
  }

  function Header(components: Token, mode: Token, select: Token, ty: Token, dimension: Token,
                  first: Token, second: Token, third: Token, extended: bool): Token {
    (components & 0x0000_0003) | ((mode << 2) & 0x0000_000c) | select | ((ty << 12) & 0x000f_f000)
    | ((dimension << 20) & 0x0030_0000) | ((first << 22) & 0x00c0_0000) | ((second << 25) & 0x0600_0000)
    | ((third << 28) & 0x3000_0000) | if extended then 0x8000_0000 else 0
  }

  lemma HeaderFields(components: Token, mode: Token, select: Token, ty: Token, dimension: Token,
                     first: Token, second: Token, third: Token, extended: bool)
    requires components < 4 && mode < 4 && select & 0x0000_0ff0 == select && ty < 256 && dimension < 4
    requires first < 4 && second < 4 && third < 4
    ensures var t := Header(components, mode, select, ty, dimension, first, second, third, extended);
            && ComponentsOf(t) == components && ModeOf(t) == mode && t & 0x0000_0ff0 == select
            && TypeOf(t) == ty && DimensionOf(t) == dimension
            && FirstIndexOf(t) == first && SecondIndexOf(t) == second && ThirdIndexOf(t) == third
            && ExtendedOf(t) == extended
  {
  }

  lemma SelectFields(t: Token, select: Token)
    requires t & 0x0000_0ff0 == select
    ensures MaskOf(t) == MaskOf(select) && SelectedOf(t) == SelectedOf(select)
    ensures SwizzleXOf(t) == SwizzleXOf(select) && SwizzleYOf(t) == SwizzleYOf(select)
    ensures SwizzleZOf(t) == SwizzleZOf(select) && SwizzleWOf(t) == SwizzleWOf(select)
  {
  }

  lemma SwizzleFields(x: Token, y: Token, z: Token, w: Token)
    requires x < 4 && y < 4 && z < 4 && w < 4
    ensures var s := Swizzled(x, y, z, w);
            && s & 0x0000_0ff0 == s
            && SwizzleXOf(s) == x && SwizzleYOf(s) == y && SwizzleZOf(s) == z && SwizzleWOf(s) == w
  {
  }

  function ExtensionToken(modifier: Token, precision: Token, nonUniform: Token): Token {
    ((modifier << 6) & 0x0000_3fc0) | MODIFIER | ((precision << 14) & 0x0001_c000) | ((nonUniform << 17) & 0x0002_0000)
  }

  lemma ExtensionFields(modifier: Token, precision: Token, nonUniform: Token)
    requires modifier < 256 && precision < 8 && nonUniform < 2
    ensures var t := ExtensionToken(modifier, precision, nonUniform);
            && ExtensionTypeOf(t) == MODIFIER
            && ModifierOf(t) == modifier && PrecisionOf(t) == precision && NonUniformOf(t) == nonUniform
  {
  }

  // ------------------------------------------------------------- operands

  datatype Selection =
    | NoSelection
    | WriteMask(mask: Token)
    | Swizzle(x: Token, y: Token, z: Token, w: Token)
    | SelectOne(component: Token)

  datatype Extension =
    | NoExtension
    | Modifier(modifier: Token, precision: Token, nonUniform: Token)
    | OtherExtension(kind: Token)

  /** What an index keeps of the operand it is relative to. */
  datatype Register = Register(ty: Token, index0: Token, index1: Token, dimension: Token, component: Token,
                               precision: Token)

  datatype Index =
    | Immediate(value: Token)
    | Immediate64(hi: Token, lo: Token)
    | Relative(register: Register)
    | Offset(value: Token, register: Register)

  datatype Operand = Operand(ty: Token, components: Token, selection: Selection, extension: Extension,
                             values: seq<Token>, dimension: Token, indices: seq<Index>)

  predicate IsImmediate(ty: Token) { ty == IMMEDIATE32 || ty == IMMEDIATE64 }

  /** The register index an index object holds; 64-bit indices share its storage, and a plainly
      relative one leaves it zero. */
  function RegIndex(indices: seq<Index>, i: nat): Token {
    if i >= |indices| then 0 as Token
    else
      match indices[i]
      case Immediate(v) => v
      case Immediate64(hi, lo) => hi
      case Relative(r) => 0 as Token
      case Offset(v, r) => v
  }

  function Flattened(op: Operand): Register {
    Register(op.ty, RegIndex(op.indices, 0), RegIndex(op.indices, 1), op.dimension,
             if op.selection.SelectOne? then op.selection.component else 0,
             if op.extension.Modifier? then op.extension.precision else 0)
  }

  // ------------------------------------------------------------- the parser's function

  datatype Parsed<T> = Parsed(value: T, next: nat) | Failed | PastEnd

  function ParseSelection(t: Token): Parsed<Selection> {
    if IsImmediate(TypeOf(t)) || ComponentsOf(t) != FOUR_COMPONENTS then Parsed(NoSelection, 0)
    else if ModeOf(t) == 0 then Parsed(WriteMask(MaskOf(t)), 0)
    else if ModeOf(t) == 1 then Parsed(Swizzle(SwizzleXOf(t), SwizzleYOf(t), SwizzleZOf(t), SwizzleWOf(t)), 0)
    else if ModeOf(t) == 2 then Parsed(SelectOne(SelectedOf(t)), 0)
    else Failed
  }

  function ParseExtension(ts: seq<Token>, at: nat, extended: bool): Parsed<Extension>
    requires at <= |ts|
  {
    if !extended then Parsed(NoExtension, at)
    else if at == |ts| then PastEnd
    else if ExtensionTypeOf(ts[at]) == MODIFIER then
      Parsed(Modifier(ModifierOf(ts[at]), PrecisionOf(ts[at]), NonUniformOf(ts[at])), at + 1)
    else Parsed(OtherExtension(ExtensionTypeOf(ts[at])), at + 1)
  }

  function ValueCount(t: Token): nat {
    if !IsImmediate(TypeOf(t)) then 0
    else if ComponentsOf(t) == ONE_COMPONENT then 1
    else if ComponentsOf(t) == FOUR_COMPONENTS then 4
    else 0
  }

  function Representations(t: Token): seq<Token> {
    if IsImmediate(TypeOf(t)) || DimensionOf(t) == 0 then []
    else if DimensionOf(t) == 1 then [FirstIndexOf(t)]
    else if DimensionOf(t) == 2 then [FirstIndexOf(t), SecondIndexOf(t)]
    else [FirstIndexOf(t), SecondIndexOf(t), ThirdIndexOf(t)]
  }

  /** Every operand takes at least its own token and stays within the code. */
  function ParseOperand(ts: seq<Token>, at: nat): (r: Parsed<Operand>)
    requires at <= |ts|
    ensures r.Parsed? ==> at < r.next <= |ts|
    decreases |ts| - at, 0
  {
    if at == |ts| then PastEnd
    else
      var t := ts[at];
      var selection := ParseSelection(t);
      if !selection.Parsed? then Failed
      else
        var extension := ParseExtension(ts, at + 1, ExtendedOf(t));
        if !extension.Parsed? then PastEnd
        else
          var first := extension.next + ValueCount(t);
          if first > |ts| then PastEnd
          else
            var indices := ParseIndices(ts, first, Representations(t));
            if indices.Failed? then Failed
            else if indices.PastEnd? then PastEnd
            else
              Parsed(Operand(TypeOf(t), ComponentsOf(t), selection.value, extension.value, ts[extension.next..first],
                             if IsImmediate(TypeOf(t)) then 0 else DimensionOf(t), indices.value), indices.next)
  }

  function ParseIndices(ts: seq<Token>, at: nat, representations: seq<Token>): (r: Parsed<seq<Index>>)
    requires at <= |ts|
    ensures r.Parsed? ==> at <= r.next <= |ts| && |r.value| == |representations|
    decreases |ts| - at, 2 + |representations|
  {
    if representations == [] then Parsed([], at)
    else
      var first := ParseIndex(ts, at, representations[0]);
      if first.Failed? then Failed
      else if first.PastEnd? then PastEnd
      else
        var rest := ParseIndices(ts, first.next, representations[1..]);
        if rest.Failed? then Failed
        else if rest.PastEnd? then PastEnd
        else Parsed([first.value] + rest.value, rest.next)
  }

  function ParseIndex(ts: seq<Token>, at: nat, representation: Token): (r: Parsed<Index>)
    requires at <= |ts|
    ensures r.Parsed? ==> at < r.next <= |ts|
    decreases |ts| - at, 1
  {
    if representation == 0 then
      if at == |ts| then PastEnd else Parsed(Immediate(ts[at]), at + 1)
    else if representation == 1 then
      if at + 2 > |ts| then PastEnd else Parsed(Immediate64(ts[at], ts[at + 1]), at + 2)
    else if representation == 2 then
      var op := ParseOperand(ts, at);
      if op.Failed? then Failed
      else if op.PastEnd? then PastEnd
      else Parsed(Relative(Flattened(op.value)), op.next)
    else if representation == 3 then
      if at == |ts| then PastEnd
      else
        var op := ParseOperand(ts, at + 1);
        if op.Failed? then Failed
        else if op.PastEnd? then PastEnd
        else Parsed(Offset(ts[at], Flattened(op.value)), op.next)
    else Failed
  }

  function Prepended(before: seq<Index>, rest: Parsed<seq<Index>>): Parsed<seq<Index>> {
    if rest.Parsed? then Parsed(before + rest.value, rest.next) else rest
  }

  lemma NothingPrepended(rest: Parsed<seq<Index>>)
    ensures Prepended([], rest) == rest
  {
    if rest.Parsed? {
      assert [] + rest.value == rest.value;
    }
  }

  lemma PrependOne(before: seq<Index>, index: Index, rest: Parsed<seq<Index>>)
    ensures Prepended(before, Prepended([index], rest)) == Prepended(before + [index], rest)
  {
    if rest.Parsed? {
      assert before + ([index] + rest.value) == (before + [index]) + rest.value;
    }
  }

  // ------------------------------------------------------------- the parser

  datatype Outcome<T> = Done(value: T) | Error | EndOfCode

  /** The cursor moves over the code; parsing an operand elsewhere puts it back. */
  class Parser {
    const code: seq<Token>
    var cursor: nat

    predicate Valid() reads this { cursor <= |code| }

    constructor (code: seq<Token>)
      ensures Valid() && this.code == code && cursor == 0
    {
      this.code, cursor := code, 0;
    }

    method ReadIndex(representation: Token) returns (r: Outcome<Index>)
      requires Valid()
      modifies this
      ensures Valid()
      ensures var p := ParseIndex(code, old(cursor), representation);
              if p.Parsed? then r == Done(p.value) && cursor == p.next
              else if p.Failed? then r == Error
              else r == EndOfCode
      decreases |code| - cursor, 1
    {
      if representation == 0 {
        if cursor == |code| { return EndOfCode; }
        r := Done(Immediate(code[cursor]));
        cursor := cursor + 1;
      } else if representation == 1 {
        if cursor + 2 > |code| { return EndOfCode; }
        r := Done(Immediate64(code[cursor], code[cursor + 1]));
        cursor := cursor + 2;
      } else if representation == 2 {
        var op := ReadOperand();
        match op {
          case Done(o) => return Done(Relative(Flattened(o)));
          case Error => return Error;
          case EndOfCode => return EndOfCode;
        }
      } else if representation == 3 {
        if cursor == |code| { return EndOfCode; }
        var value := code[cursor];
        cursor := cursor + 1;
        var op := ReadOperand();
        match op {
          case Done(o) => return Done(Offset(value, Flattened(o)));
          case Error => return Error;
          case EndOfCode => return EndOfCode;
        }
      } else {
        return Error;
      }
    }

    method ReadIndices(representations: seq<Token>) returns (r: Outcome<seq<Index>>)
      requires Valid()
      modifies this
      ensures Valid()
      ensures var p := ParseIndices(code, old(cursor), representations);
              if p.Parsed? then r == Done(p.value) && cursor == p.next
              else if p.Failed? then r == Error
              else r == EndOfCode
      decreases |code| - cursor, 2 + |representations|
    {
      var indices: seq<Index> := [];
      ghost var start := cursor;
      NothingPrepended(ParseIndices(code, start, representations));
      assert representations[0..] == representations;
      for i := 0 to |representations|
        invariant Valid() && start <= cursor
        invariant ParseIndices(code, start, representations) ==
          Prepended(indices, ParseIndices(code, cursor, representations[i..]))
      {
        ghost var at := cursor;
        var index := ReadIndex(representations[i]);
        if index.Error? { return Error; }
        if index.EndOfCode? { return EndOfCode; }
        assert representations[i..][1..] == representations[i + 1..];
        PrependOne(indices, index.value, ParseIndices(code, cursor, representations[i + 1..]));
        indices := indices + [index.value];
      }
      assert representations[|representations|..] == [];
      assert indices + [] == indices;
      return Done(indices);
    }

    method ReadOperand() returns (r: Outcome<Operand>)
      requires Valid()
      modifies this
      ensures Valid()
      ensures var p := ParseOperand(code, old(cursor));
              if p.Parsed? then r == Done(p.value) && cursor == p.next
              else if p.Failed? then r == Error
              else r == EndOfCode
      decreases |code| - cursor, 0
    {
      hide TypeOf, ComponentsOf, ExtendedOf, ExtensionTypeOf, ModifierOf, PrecisionOf, NonUniformOf;
      hide DimensionOf, ValueCount, Representations, ParseSelection, IsImmediate;
      if cursor == |code| { return EndOfCode; }
      var t := code[cursor];
      cursor := cursor + 1;
      var selection := ParseSelection(t);
      if !selection.Parsed? { return Error; }
      var extension := NoExtension;
      if ExtendedOf(t) {
        if cursor == |code| { return EndOfCode; }
        var e := code[cursor];
        cursor := cursor + 1;
        if ExtensionTypeOf(e) == MODIFIER {
          extension := Modifier(ModifierOf(e), PrecisionOf(e), NonUniformOf(e));
        } else {
          extension := OtherExtension(ExtensionTypeOf(e));
        }
      }
      var n := ValueCount(t);
      if cursor + n > |code| { return EndOfCode; }
      var values := code[cursor..cursor + n];
      cursor := cursor + n;
      var indices := ReadIndices(Representations(t));
      if indices.Error? { return Error; }
      if indices.EndOfCode? { return EndOfCode; }
      return Done(Operand(TypeOf(t), ComponentsOf(t), selection.value, extension, values,
                          if IsImmediate(TypeOf(t)) then 0 else DimensionOf(t), indices.value));
    }

    method ReadOperandAt(at: nat) returns (r: Outcome<Operand>, next: nat)
      requires Valid() && at <= |code|
      modifies this
      ensures Valid() && cursor == old(cursor)
      ensures var p := ParseOperand(code, at);
              if p.Parsed? then r == Done(p.value) && next == p.next
              else if p.Failed? then r == Error
              else r == EndOfCode
    {
      var saved := cursor;
      cursor := at;
      r := ReadOperand();
      next := cursor;
      cursor := saved;
    }
  }

  // ------------------------------------------------------------- the encoder

  /** The dimension of an index as a number. */
  function Dimensions(dimension: Token): nat {
    if dimension == 0 then 0 else if dimension == 1 then 1 else if dimension == 2 then 2 else 3
  }

  /** A register that relative indexing can name: it has one index, indexable ones two. */
  predicate Expressible(r: Register) {
    && r.ty < 256 && !IsImmediate(r.ty) && r.component < 4 && r.precision < 8
    && r.dimension == (if r.ty == INDEXABLE_TEMP then 2 as Token else 1 as Token)
    && (r.dimension == 1 ==> r.index1 == 0)
  }

  predicate ValidIndex(i: Index) { i.Relative? || i.Offset? ==> Expressible(i.register) }

  predicate ValidSelection(ty: Token, components: Token, s: Selection) {
    match s
    case NoSelection => IsImmediate(ty) || components != FOUR_COMPONENTS
    case WriteMask(m) => !IsImmediate(ty) && components == FOUR_COMPONENTS && m & 0x0000_00f0 == m
    case Swizzle(x, y, z, w) => !IsImmediate(ty) && components == FOUR_COMPONENTS && x < 4 && y < 4 && z < 4 && w < 4
    case SelectOne(c) => !IsImmediate(ty) && components == FOUR_COMPONENTS && c < 4
  }

  predicate ValidExtension(e: Extension) {
    match e
    case NoExtension => true
    case Modifier(m, p, n) => m < 256 && p < 8 && n < 2
    case OtherExtension(k) => k < 64 && k != MODIFIER
  }

  predicate ValidHead(op: Operand) {
    && op.ty < 256 && op.components < 4 && op.dimension < 4
    && ValidSelection(op.ty, op.components, op.selection) && ValidExtension(op.extension)
    && |op.values| ==
         (if !IsImmediate(op.ty) then 0 else if op.components == ONE_COMPONENT then 1
          else if op.components == FOUR_COMPONENTS then 4 else 0)
    && (IsImmediate(op.ty) ==> op.dimension == 0) && |op.indices| == Dimensions(op.dimension)
  }

  /** Everything the encoder can express. */
  predicate ValidOperand(op: Operand) {
    ValidHead(op) && forall i :: 0 <= i < |op.indices| ==> ValidIndex(op.indices[i])
  }

  function Representation(indices: seq<Index>, i: nat): Token {
    if i >= |indices| then 0 as Token
    else
      match indices[i]
      case Immediate(v) => 0 as Token
      case Immediate64(hi, lo) => 1 as Token
      case Relative(r) => 2 as Token
      case Offset(v, r) => 3 as Token
  }

  function SelectionMode(s: Selection): Token {
    match s
    case NoSelection => 0 as Token
    case WriteMask(m) => 0 as Token
    case Swizzle(x, y, z, w) => 1 as Token
    case SelectOne(c) => 2 as Token
  }

  function SelectionBits(s: Selection): Token {
    match s
    case NoSelection => 0 as Token
    case WriteMask(m) => m & 0x0000_00f0
    case Swizzle(x, y, z, w) => Swizzled(x, y, z, w)
    case SelectOne(c) => (c << 4) & 0x0000_0030
  }

  function HeaderOf(op: Operand): Token {
    Header(op.components, SelectionMode(op.selection), SelectionBits(op.selection), op.ty, op.dimension,
           Representation(op.indices, 0), Representation(op.indices, 1), Representation(op.indices, 2),
           !op.extension.NoExtension?)
  }

  function EncodeExtension(e: Extension): seq<Token> {
    match e
    case NoExtension => []
    case Modifier(m, p, n) => [ExtensionToken(m, p, n)]
    case OtherExtension(k) => [k & 0x0000_003f]
  }

  function EncodeWith(op: Operand, indexTokens: seq<Token>): seq<Token> {
    [HeaderOf(op)] + EncodeExtension(op.extension) + op.values + indexTokens
  }

  /** The operand that names a register. */
  function Naming(r: Register): Operand {
    Operand(r.ty, FOUR_COMPONENTS, SelectOne(r.component),
            if r.precision == 0 then NoExtension else Modifier(0, r.precision, 0), [],
            r.dimension, if r.dimension == 2 then [Immediate(r.index0), Immediate(r.index1)] else [Immediate(r.index0)])
  }

  function EncodeRegister(r: Register): seq<Token> {
    EncodeWith(Naming(r), if r.dimension == 2 then [r.index0, r.index1] else [r.index0])
  }

  function EncodeIndex(i: Index): seq<Token> {
    match i
    case Immediate(v) => [v]
    case Immediate64(hi, lo) => [hi, lo]
    case Relative(r) => EncodeRegister(r)
    case Offset(v, r) => [v] + EncodeRegister(r)
  }

  function EncodeIndices(indices: seq<Index>): seq<Token> {
    if indices == [] then [] else EncodeIndex(indices[0]) + EncodeIndices(indices[1..])
  }

  function Encode(op: Operand): seq<Token> { EncodeWith(op, EncodeIndices(op.indices)) }

  // ------------------------------------------------------------- round trips

  /** The code has `tokens` at `at`. */
  predicate Has(ts: seq<Token>, at: nat, tokens: seq<Token>) {
    at + |tokens| <= |ts| && ts[at..at + |tokens|] == tokens
  }

  lemma HasParts(ts: seq<Token>, at: nat, a: seq<Token>, b: seq<Token>)
    requires Has(ts, at, a + b)
    ensures Has(ts, at, a) && Has(ts, at + |a|, b)
  {
    var both := ts[at..at + |a + b|];
    assert both[..|a|] == a && both[|a|..] == b;
  }

  /** The representations a header announces. */
  function Announced(op: Operand): seq<Token> {
    if op.dimension == 0 then []
    else if op.dimension == 1 then [Representation(op.indices, 0)]
    else if op.dimension == 2 then [Representation(op.indices, 0), Representation(op.indices, 1)]
    else [Representation(op.indices, 0), Representation(op.indices, 1), Representation(op.indices, 2)]
  }

  lemma SelectionBitsFit(op: Operand)
    requires ValidHead(op)
    ensures SelectionBits(op.selection) & 0x0000_0ff0 == SelectionBits(op.selection)
    ensures op.selection.SelectOne? ==> SelectedOf(SelectionBits(op.selection)) == op.selection.component
    ensures op.selection.WriteMask? ==> MaskOf(SelectionBits(op.selection)) == op.selection.mask
  {
    if op.selection.Swizzle? {
      SwizzleFields(op.selection.x, op.selection.y, op.selection.z, op.selection.w);
    } else if op.selection.SelectOne? {
      SelectedFits(op.selection.component);
    } else if op.selection.WriteMask? {
      MaskFits(op.selection.mask);
    }
  }

  lemma SelectedFits(c: Token)
    requires c < 4
    ensures var b := (c << 4) & 0x0000_0030; b & 0x0000_0ff0 == b && SelectedOf(b) == c
  {
  }

  lemma MaskFits(m: Token)
    requires m & 0x0000_00f0 == m
    ensures var b := m & 0x0000_00f0; b & 0x0000_0ff0 == b && MaskOf(b) == m
  {
  }

  /** The raw fields of a header. */
  predicate Carries(t: Token, op: Operand) {
    && TypeOf(t) == op.ty && ComponentsOf(t) == op.components && ExtendedOf(t) == !op.extension.NoExtension?
    && ModeOf(t) == SelectionMode(op.selection) && t & 0x0000_0ff0 == SelectionBits(op.selection)
    && DimensionOf(t) == op.dimension && FirstIndexOf(t) == Representation(op.indices, 0)
    && SecondIndexOf(t) == Representation(op.indices, 1) && ThirdIndexOf(t) == Representation(op.indices, 2)
  }

  lemma HeaderCarries(op: Operand)
    requires ValidHead(op)
    ensures Carries(HeaderOf(op), op)
  {
    hide Header, SelectionBits, TypeOf, ComponentsOf, ModeOf, DimensionOf, FirstIndexOf, SecondIndexOf;
    hide ThirdIndexOf, ExtendedOf, ValidHead, Representation, SelectionMode, SelectedOf, MaskOf;
    SelectionBitsFit(op);
    FieldsSmall(op);
    HeaderFields(op.components, SelectionMode(op.selection), SelectionBits(op.selection), op.ty, op.dimension,
      Representation(op.indices, 0), Representation(op.indices, 1), Representation(op.indices, 2),
      !op.extension.NoExtension?);
  }

  lemma FieldsSmall(op: Operand)
    requires ValidHead(op)
    ensures op.components < 4 && op.ty < 256 && op.dimension < 4 && SelectionMode(op.selection) < 4
    ensures Representation(op.indices, 0) < 4 && Representation(op.indices, 1) < 4 && Representation(op.indices, 2) < 4
  {
  }

  lemma SelectionParsed(t: Token, op: Operand)
    requires ValidHead(op) && Carries(t, op)
    ensures ParseSelection(t) == Parsed(op.selection, 0)
  {
    SelectFields(t, SelectionBits(op.selection));
    SelectionBitsFit(op);
    if op.selection.Swizzle? {
      SwizzledFields(op.selection);
    }
    hide SelectionBits, TypeOf, ComponentsOf, ModeOf, MaskOf, SelectedOf, SwizzleXOf, SwizzleYOf, SwizzleZOf;
    hide SwizzleWOf, DimensionOf, FirstIndexOf, SecondIndexOf, ThirdIndexOf, ExtendedOf;
  }

  lemma RepresentationsParsed(t: Token, op: Operand)
    requires ValidHead(op) && Carries(t, op)
    ensures ValueCount(t) == |op.values| && Representations(t) == Announced(op)
  {
    hide SelectionBits, TypeOf, ComponentsOf, ModeOf, DimensionOf, FirstIndexOf, SecondIndexOf, ThirdIndexOf;
    hide ExtendedOf;
  }

  lemma HeadLaidOut(ts: seq<Token>, at: nat, op: Operand, indexTokens: seq<Token>)
    requires Has(ts, at, EncodeWith(op, indexTokens))
    ensures var e := |EncodeExtension(op.extension)|;
            && at < |ts| && ts[at] == HeaderOf(op) && Has(ts, at + 1, EncodeExtension(op.extension))
            && Has(ts, at + 1 + e, op.values) && Has(ts, at + 1 + e + |op.values|, indexTokens)
            && |EncodeWith(op, indexTokens)| == 1 + e + |op.values| + |indexTokens|
  {
    hide HeaderOf, EncodeExtension;
    var t := HeaderOf(op);
    var e := EncodeExtension(op.extension);
    assert EncodeWith(op, indexTokens) == [t] + (e + (op.values + indexTokens));
    HasParts(ts, at, [t], e + (op.values + indexTokens));
    HasParts(ts, at + 1, e, op.values + indexTokens);
    HasParts(ts, at + 1 + |e|, op.values, indexTokens);
    assert ts[at] == ts[at..at + 1][0] == t;
  }

  /** Where the tokens of an operand's indices start. */
  function HeadLength(op: Operand): nat { 1 + |EncodeExtension(op.extension)| + |op.values| }

  /** The head of an operand is read back, and its indices are parsed from where they start. */
  lemma HeadParsed(ts: seq<Token>, at: nat, op: Operand, indexTokens: seq<Token>)
    requires ValidHead(op) && Has(ts, at, EncodeWith(op, indexTokens))
    ensures Has(ts, at + HeadLength(op), indexTokens) && |EncodeWith(op, indexTokens)| == HeadLength(op) + |indexTokens|
    ensures var end := at + |EncodeWith(op, indexTokens)|;
            ParseIndices(ts, at + HeadLength(op), Announced(op)) == Parsed(op.indices, end) ==>
              ParseOperand(ts, at) == Parsed(op, end)
  {
    hide HeaderOf, EncodeExtension, EncodeWith, Representations, ValueCount, ParseSelection, ParseExtension;
    hide Announced, ParseIndices, TypeOf, ComponentsOf, ModeOf, DimensionOf, FirstIndexOf, SecondIndexOf;
    hide ThirdIndexOf, ExtendedOf, SelectionBits, SelectionMode, Representation;
    HeaderCarries(op);
    SelectionParsed(HeaderOf(op), op);
    RepresentationsParsed(HeaderOf(op), op);
    HeadLaidOut(ts, at, op, indexTokens);
    ExtensionParsed(ts, at + 1, op.extension);
  }

  lemma ExtensionParsed(ts: seq<Token>, at: nat, e: Extension)
    requires at <= |ts| && ValidExtension(e) && Has(ts, at, EncodeExtension(e))
    ensures ParseExtension(ts, at, !e.NoExtension?) == Parsed(e, at + |EncodeExtension(e)|)
  {
    match e {
      case NoExtension =>
      case Modifier(m, p, n) =>
        assert ts[at] == ts[at..at + 1][0];
        ExtensionFields(m, p, n);
      case OtherExtension(k) =>
        assert ts[at] == ts[at..at + 1][0];
        KindFits(k);
    }
  }

  lemma KindFits(k: Token)
    requires k < 64
    ensures ExtensionTypeOf(k & 0x0000_003f) == k
  {
  }

  /** A register that was encoded for relative indexing is the one the index keeps. */
  lemma RegisterRoundTrip(ts: seq<Token>, at: nat, r: Register)
    requires Expressible(r) && Has(ts, at, EncodeRegister(r))
    ensures ParseOperand(ts, at) == Parsed(Naming(r), at + |EncodeRegister(r)|)
    ensures Flattened(Naming(r)) == r
  {
    hide HeaderOf, ParseOperand;
    var op := Naming(r);
    var tokens := if r.dimension == 2 then [r.index0, r.index1] else [r.index0];
    HeadParsed(ts, at, op, tokens);
    var first := at + HeadLength(op);
    HasAt(ts, first, tokens, 0);
    if r.dimension == 2 {
      HasAt(ts, first, tokens, 1);
      TwoIndices(ts, first);
      assert Announced(op) == [0, 0];
    } else {
      OneIndex(ts, first);
      assert Announced(op) == [0];
    }
  }

  lemma HasAt(ts: seq<Token>, at: nat, tokens: seq<Token>, i: nat)
    requires Has(ts, at, tokens) && i < |tokens|
    ensures at + i < |ts| && ts[at + i] == tokens[i]
  {
    assert ts[at..at + |tokens|][i] == ts[at + i];
  }

  lemma OneIndex(ts: seq<Token>, at: nat)
    requires at < |ts|
    ensures ParseIndices(ts, at, [0 as Token]) == Parsed([Immediate(ts[at])], at + 1)
  {
    assert [0 as Token][1..] == [];
    assert ParseIndices(ts, at + 1, []) == Parsed([], at + 1);
    assert [Immediate(ts[at])] + [] == [Immediate(ts[at])];
  }

  lemma TwoIndices(ts: seq<Token>, at: nat)
    requires at + 1 < |ts|
    ensures ParseIndices(ts, at, [0 as Token, 0 as Token]) == Parsed([Immediate(ts[at]), Immediate(ts[at + 1])], at + 2)
  {
    assert [0 as Token, 0 as Token][1..] == [0 as Token];
    OneIndex(ts, at + 1);
    assert [Immediate(ts[at])] + [Immediate(ts[at + 1])] == [Immediate(ts[at]), Immediate(ts[at + 1])];
  }

  lemma SwizzledFields(s: Selection)
    requires s.Swizzle? && s.x < 4 && s.y < 4 && s.z < 4 && s.w < 4
    ensures var b := SelectionBits(s);
            SwizzleXOf(b) == s.x && SwizzleYOf(b) == s.y && SwizzleZOf(b) == s.z && SwizzleWOf(b) == s.w
  {
    SwizzleFields(s.x, s.y, s.z, s.w);
  }

  lemma IndexRoundTrip(ts: seq<Token>, at: nat, indices: seq<Index>, i: nat)
    requires i < |indices| && ValidIndex(indices[i]) && Has(ts, at, EncodeIndex(indices[i]))
    ensures at + |EncodeIndex(indices[i])| <= |ts|
    ensures ParseIndex(ts, at, Representation(indices, i)) == Parsed(indices[i], at + |EncodeIndex(indices[i])|)
  {
    match indices[i] {
      case Immediate(v) => HasAt(ts, at, [v], 0);
      case Immediate64(hi, lo) =>
        HasAt(ts, at, [hi, lo], 0);
        HasAt(ts, at, [hi, lo], 1);
      case Relative(r) => RelativeRoundTrip(ts, at, r);
      case Offset(v, r) => OffsetRoundTrip(ts, at, v, r);
    }
    hide EncodeRegister, ParseOperand;
  }

  lemma RelativeRoundTrip(ts: seq<Token>, at: nat, r: Register)
    requires Expressible(r) && Has(ts, at, EncodeRegister(r))
    ensures ParseIndex(ts, at, 2) == Parsed(Relative(r), at + |EncodeRegister(r)|)
  {
    hide EncodeRegister, Flattened, ParseOperand, Has;
    RegisterRoundTrip(ts, at, r);
  }

  lemma OffsetRoundTrip(ts: seq<Token>, at: nat, v: Token, r: Register)
    requires Expressible(r) && Has(ts, at, [v] + EncodeRegister(r))
    ensures ParseIndex(ts, at, 3) == Parsed(Offset(v, r), at + 1 + |EncodeRegister(r)|)
  {
    hide EncodeRegister, Flattened, ParseOperand, Has;
    var register := EncodeRegister(r);
    HasParts(ts, at, [v], register);
    HasAt(ts, at, [v], 0);
    RegisterRoundTrip(ts, at + 1, r);
  }

  function RepresentationsFrom(indices: seq<Index>, i: nat): seq<Token>
    requires i <= |indices|
    decreases |indices| - i
  {
    if i == |indices| then [] else [Representation(indices, i)] + RepresentationsFrom(indices, i + 1)
  }

  lemma {:induction false} IndicesRoundTrip(ts: seq<Token>, at: nat, indices: seq<Index>, i: nat)
    requires i <= |indices| && forall k :: i <= k < |indices| ==> ValidIndex(indices[k])
    requires Has(ts, at, EncodeIndices(indices[i..]))
    ensures ParseIndices(ts, at, RepresentationsFrom(indices, i)) ==
      Parsed(indices[i..], at + |EncodeIndices(indices[i..])|)
    decreases |indices| - i
  {
    hide Representation, EncodeIndex, ParseIndex;
    if i < |indices| {
      assert indices[i..][1..] == indices[i + 1..];
      var rest := EncodeIndices(indices[i + 1..]);
      HasParts(ts, at, EncodeIndex(indices[i]), rest);
      IndexRoundTrip(ts, at, indices, i);
      IndicesRoundTrip(ts, at + |EncodeIndex(indices[i])|, indices, i + 1);
      assert RepresentationsFrom(indices, i)[1..] == RepresentationsFrom(indices, i + 1);
      assert [indices[i]] + indices[i + 1..] == indices[i..];
    }
  }

  lemma AnnouncedIsAll(op: Operand)
    requires ValidHead(op)
    ensures Announced(op) == RepresentationsFrom(op.indices, 0)
  {
    hide Representation;
    var n := |op.indices|;
    assert RepresentationsFrom(op.indices, n) == [];
    if n >= 1 {
      assert RepresentationsFrom(op.indices, n - 1) == [Representation(op.indices, n - 1)];
    }
    if n >= 2 {
      assert RepresentationsFrom(op.indices, n - 2) ==
        [Representation(op.indices, n - 2), Representation(op.indices, n - 1)];
    }
  }

  /** Wherever an operand's encoding stands in the code, parsing there returns the operand and
      takes exactly its tokens. */
  lemma OperandRoundTrip(ts: seq<Token>, at: nat, op: Operand)
    requires ValidOperand(op) && Has(ts, at, Encode(op))
    ensures at <= |ts| && ParseOperand(ts, at) == Parsed(op, at + |Encode(op)|)
  {
    hide ValidHead, ParseOperand, ParseIndices, EncodeWith, Announced, ValidIndex;
    HeadParsed(ts, at, op, EncodeIndices(op.indices));
    assert op.indices[0..] == op.indices;
    IndicesRoundTrip(ts, at + HeadLength(op), op.indices, 0);
    AnnouncedIsAll(op);
  }

  // ------------------------------------------------------------- tokens as they are in shaders

  /** Immediate values: one or four of 32 bits, four tokens of two 64-bit ones. */
  lemma KnownImmediates(ts: seq<Token>, at: nat, a: Token, b: Token, c: Token, d: Token)
    requires at <= |ts|
    ensures Has(ts, at, [0x0000_4001, a])
            ==> ParseOperand(ts, at) == Parsed(Operand(4, 1, NoSelection, NoExtension, [a], 0, []), at + 2)
    ensures Has(ts, at, [0x0000_4002, a, b, c, d])
            ==> ParseOperand(ts, at) == Parsed(Operand(4, 2, NoSelection, NoExtension, [a, b, c, d], 0, []), at + 5)
    ensures Has(ts, at, [0x0000_5002, a, b, c, d])
            ==> ParseOperand(ts, at) == Parsed(Operand(5, 2, NoSelection, NoExtension, [a, b, c, d], 0, []), at + 5)
  {
    ParsedAs(ts, at, Operand(4, 1, NoSelection, NoExtension, [a], 0, []), [0x0000_4001, a], []);
    ParsedAs(ts, at, Operand(4, 2, NoSelection, NoExtension, [a, b, c, d], 0, []), [0x0000_4002, a, b, c, d], []);
    ParsedAs(ts, at, Operand(5, 2, NoSelection, NoExtension, [a, b, c, d], 0, []), [0x0000_5002, a, b, c, d], []);
  }

  lemma ParsedAs(ts: seq<Token>, at: nat, op: Operand, tokens: seq<Token>, indexTokens: seq<Token>)
    requires at <= |ts| && ValidOperand(op) && EncodeIndices(op.indices) == indexTokens
    requires tokens == [HeaderOf(op)] + EncodeExtension(op.extension) + op.values + indexTokens
    ensures Has(ts, at, tokens) ==> ParseOperand(ts, at) == Parsed(op, at + |tokens|)
  {
    if Has(ts, at, tokens) {
      OperandRoundTrip(ts, at, op);
    }
  }

  /** `r[a].yz` as a destination, and `-r[a].z` of least precision and not uniform. */
  lemma KnownTemporaries(ts: seq<Token>, at: nat, a: Token)
    requires at <= |ts|
    ensures Has(ts, at, [0x0010_0062, a])
            ==> ParseOperand(ts, at)
                == Parsed(Operand(0, 2, WriteMask(0x60), NoExtension, [], 1, [Immediate(a)]), at + 2)
    ensures Has(ts, at, [0x8010_002A, 0x0002_4041, a])
            ==> ParseOperand(ts, at)
                == Parsed(Operand(0, 2, SelectOne(2), Modifier(1, 1, 1), [], 1, [Immediate(a)]), at + 3)
  {
    OneImmediate(a);
    ParsedAs(ts, at, Operand(0, 2, WriteMask(0x60), NoExtension, [], 1, [Immediate(a)]), [0x0010_0062, a], [a]);
    ParsedAs(ts, at, Operand(0, 2, SelectOne(2), Modifier(1, 1, 1), [], 1, [Immediate(a)]),
             [0x8010_002A, 0x0002_4041, a], [a]);
  }

  /** `cb[a][b].xyzw`. */
  lemma KnownBuffers(ts: seq<Token>, at: nat, a: Token, b: Token)
    requires at <= |ts|
    ensures Has(ts, at, [0x0020_8E46, a, b])
            ==> ParseOperand(ts, at)
                == Parsed(Operand(8, 2, Swizzle(0, 1, 2, 3), NoExtension, [], 2, [Immediate(a), Immediate(b)]), at + 3)
  {
    TwoImmediates(a, b);
    ParsedAs(ts, at, Operand(8, 2, Swizzle(0, 1, 2, 3), NoExtension, [], 2, [Immediate(a), Immediate(b)]),
             [0x0020_8E46, a, b], [a, b]);
  }

  lemma OneImmediate(a: Token)
    ensures EncodeIndices([Immediate(a)]) == [a]
  {
    assert [Immediate(a)][1..] == [];
  }

  lemma TwoImmediates(a: Token, b: Token)
    ensures EncodeIndices([Immediate(a), Immediate(b)]) == [a, b]
  {
    assert [Immediate(a), Immediate(b)][1..] == [Immediate(b)];
    OneImmediate(b);
  }

  /** Three indices of the other kinds: relative to `r[i].y` with an offset, of 64 bits, and relative
      to `x[j][k].w`. */
  function OtherKinds(a: Token, b: Token, c: Token, i: Token, j: Token, k: Token): seq<Index> {
    [Offset(a, Register(0, i, 0, 1, 1, 0)), Immediate64(b, c), Relative(Register(3, j, k, 2, 3, 0))]
  }

  lemma KnownRegister(i: Token, j: Token, k: Token)
    ensures EncodeRegister(Register(0, i, 0, 1, 1, 0)) == [0x0010_001A, i]
    ensures EncodeRegister(Register(3, j, k, 2, 3, 0)) == [0x0020_303A, j, k]
    ensures Expressible(Register(0, i, 0, 1, 1, 0)) && Expressible(Register(3, j, k, 2, 3, 0))
  {
  }

  lemma OtherKindsEncoded(a: Token, b: Token, c: Token, i: Token, j: Token, k: Token)
    ensures EncodeIndices(OtherKinds(a, b, c, i, j, k)) == [a, 0x0010_001A, i, b, c, 0x0020_303A, j, k]
    ensures var indices := OtherKinds(a, b, c, i, j, k);
            |indices| == 3 && forall x :: 0 <= x < 3 ==> ValidIndex(indices[x])
  {
    KnownRegister(i, j, k);
    hide EncodeRegister, Expressible;
    var indices := OtherKinds(a, b, c, i, j, k);
    assert indices[1..] == [indices[1], indices[2]] && indices[1..][1..] == [indices[2]];
    assert indices[1..][1..][1..] == [];
    assert EncodeIndices(indices[1..][1..]) == [0x0020_303A, j, k];
    assert EncodeIndices(indices[1..]) == [b, c, 0x0020_303A, j, k];
  }

  function WithOtherKinds(a: Token, b: Token, c: Token, i: Token, j: Token, k: Token): Operand {
    Operand(8, 2, Swizzle(3, 2, 1, 0), NoExtension, [], 3, OtherKinds(a, b, c, i, j, k))
  }

  lemma OtherKindsHead(a: Token, b: Token, c: Token, i: Token, j: Token, k: Token)
    ensures HeaderOf(WithOtherKinds(a, b, c, i, j, k)) == 0x22F0_81B6
    ensures ValidHead(WithOtherKinds(a, b, c, i, j, k))
  {
    var op := WithOtherKinds(a, b, c, i, j, k);
    assert SelectionBits(op.selection) == 0x1B0;
    assert Representation(op.indices, 0) == 3 && Representation(op.indices, 1) == 1;
    assert Representation(op.indices, 2) == 2 && SelectionMode(op.selection) == 1;
    assert Header(2, 1, 0x1B0, 8, 3, 3, 1, 2, false) == 0x22F0_81B6;
    hide Header;
  }

  lemma KnownIndices(ts: seq<Token>, at: nat, a: Token, b: Token, c: Token, i: Token, j: Token, k: Token)
    requires at <= |ts|
    ensures Has(ts, at, [0x22F0_81B6, a, 0x0010_001A, i, b, c, 0x0020_303A, j, k])
            ==> ParseOperand(ts, at)
                == Parsed(Operand(8, 2, Swizzle(3, 2, 1, 0), NoExtension, [], 3, OtherKinds(a, b, c, i, j, k)), at + 9)
  {
    OtherKindsEncoded(a, b, c, i, j, k);
    OtherKindsHead(a, b, c, i, j, k);
    hide EncodeIndices, ParseOperand, HeaderOf, OtherKinds, ValidIndex, ValidHead, Has;
    var op := WithOtherKinds(a, b, c, i, j, k);
    ParsedAs(ts, at, op, [0x22F0_81B6, a, 0x0010_001A, i, b, c, 0x0020_303A, j, k],
             [a, 0x0010_001A, i, b, c, 0x0020_303A, j, k]);
  }

  /** Of a register that is itself indexed relatively, an index keeps no index, and of one that is
      masked no component. */
  lemma KnownNested(ts: seq<Token>, at: nat, i: Token)
    requires at <= |ts|
    ensures Has(ts, at, [0x0090_0012, 0x0010_001A, i])
            ==> ParseIndex(ts, at, 2) == Parsed(Relative(Register(0, 0, 0, 1, 0, 0)), at + 3)
  {
    var r := Register(0, i, 0, 1, 1, 0);
    var op := Operand(0, 2, WriteMask(0x10), NoExtension, [], 1, [Relative(r)]);
    KnownRegister(i, i, i);
    NestedEncoded(r);
    hide EncodeRegister, EncodeIndices, Expressible, ParseOperand, Has;
    ParsedAs(ts, at, op, [0x0090_0012, 0x0010_001A, i], [0x0010_001A, i]);
  }

  lemma NestedEncoded(r: Register)
    ensures EncodeIndices([Relative(r)]) == EncodeRegister(r)
  {
    assert [Relative(r)][1..] == [];
  }

  function EncodeAll(ops: seq<Operand>): seq<Token> {
    if ops == [] then [] else Encode(ops[0]) + EncodeAll(ops[1..])
  }

  /** `count` operands one behind another, as an instruction's operands are parsed. */
  function ParseList(ts: seq<Token>, at: nat, count: nat): Parsed<seq<Operand>>
    requires at <= |ts|
    decreases count
  {
    if count == 0 then Parsed([], at)
    else
      var first := ParseOperand(ts, at);
      if !first.Parsed? then (if first.Failed? then Failed else PastEnd)
      else
        var rest := ParseList(ts, first.next, count - 1);
        if rest.Parsed? then Parsed([first.value] + rest.value, rest.next) else rest
  }

  /** The cursor advances over any list of operands, operand by operand, and stops right behind. */
  lemma {:induction false} ListRoundTrip(ts: seq<Token>, at: nat, ops: seq<Operand>)
    requires (forall i :: 0 <= i < |ops| ==> ValidOperand(ops[i])) && Has(ts, at, EncodeAll(ops))
    ensures at <= |ts| && ParseList(ts, at, |ops|) == Parsed(ops, at + |EncodeAll(ops)|)
    decreases |ops|
  {
    hide ValidOperand, Encode, ParseOperand;
    if ops != [] {
      HasParts(ts, at, Encode(ops[0]), EncodeAll(ops[1..]));
      OperandRoundTrip(ts, at, ops[0]);
      ListRoundTrip(ts, at + |Encode(ops[0])|, ops[1..]);
      assert [ops[0]] + ops[1..] == ops;
    }
  }
}
