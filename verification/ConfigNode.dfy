/** A config's fields as a node's inputs: each field described and defaulted, carried as an authored constant,
    read back as a neutral value, and the config rebuilt from those. */
module ConfigNode {
  import opened Wrappers

  // --- Values

  function Pow2(n: nat): int { if n == 0 then 1 else 2 * Pow2(n - 1) }

  /** An integer type, by its sign and width. */
  datatype IntegerKind = I(bits: nat) | U(bits: nat) {
    predicate Holds(n: int) {
      bits > 0 && (if I? then -Pow2(bits - 1) <= n < Pow2(bits - 1) else 0 <= n < Pow2(bits))
    }
  }

  const I64_MIN := -0x8000_0000_0000_0000
  const I64_MAX := 0x7FFF_FFFF_FFFF_FFFF

  predicate FitsI64(n: int) { I64_MIN <= n <= I64_MAX }

  /** A float, by its value where it is finite. */
  datatype Float = Finite(value: real) | NegativeZero | Infinite(positive: bool) | NotANumber(bits: nat) {
    predicate IsFinite() { Finite? || NegativeZero? }
  }

  datatype FloatKind = F32 | F64

  const F32_MAX := 340282346638528859811704183484516925440.0

  /** Which reals an f32 holds, and how a real and an integer round to the floats. */
  datatype Rounding = Rounding(single: real -> bool, toSingle: real -> real, toDouble: int -> real) {
    ghost predicate Valid() {
      && (forall r :: single(r) ==> -F32_MAX <= r <= F32_MAX && toSingle(r) == r)
      && (forall r :: -F32_MAX <= r <= F32_MAX ==> single(toSingle(r)))
    }
  }

  /** What a field holds. */
  datatype Data = IntData(n: int) | FloatData(f: Float) | BoolData(b: bool) | StrData(s: string)
                | EnumData(variant: nat)

  /** A field's type, and whether the field may be empty. */
  datatype Kind = Required(scalar: Scalar) | Optional(scalar: Scalar)

  /** An enum is its variants' identifiers. */
  datatype Scalar = Int(integer: IntegerKind) | Float(float: FloatKind) | Bool | Str | Enum(idents: seq<string>)

  datatype Field = Field(name: string, kind: Kind)

  predicate Fits(rounding: Rounding, scalar: Scalar, data: Data) {
    match (scalar, data)
    case (Int(kind), IntData(n)) => kind.Holds(n)
    case (Float(kind), FloatData(f)) => kind == F32 && f.Finite? ==> rounding.single(f.value)
    case (Bool, BoolData(_)) => true
    case (Str, StrData(_)) => true
    case (Enum(idents), EnumData(variant)) => variant < |idents|
    case _ => false
  }

  /** A value of a config of these fields. */
  predicate IsConfig(rounding: Rounding, fields: seq<Field>, config: seq<Option<Data>>) {
    |config| == |fields| && forall i :: 0 <= i < |fields| ==> IsHeld(rounding, fields[i], config[i])
  }

  predicate IsHeld(rounding: Rounding, field: Field, held: Option<Data>) {
    match held
    case None => field.kind.Optional?
    case Some(data) => Fits(rounding, field.kind.scalar, data)
  }

  // --- An enum's names

  predicate IsUpper(c: char) { 'A' <= c <= 'Z' }

  predicate IsLower(c: char) { 'a' <= c <= 'z' }

  predicate IsDigit(c: char) { '0' <= c <= '9' }

  function ToLower(c: char): char { if IsUpper(c) then c + 32 as char else c }

  /** An underscore goes before this letter. */
  predicate StartsWord(ident: string, i: nat)
    requires i < |ident|
  {
    i > 0 && IsUpper(ident[i])
    && (IsLower(ident[i - 1]) || IsDigit(ident[i - 1]) || (i + 1 < |ident| && IsLower(ident[i + 1])))
  }

  function SnakeCaseFrom(ident: string, i: nat): string
    requires i <= |ident|
    decreases |ident| - i
  {
    if i == |ident| then ""
    else (if StartsWord(ident, i) then "_" else "") + [ToLower(ident[i])] + SnakeCaseFrom(ident, i + 1)
  }

  function SnakeCase(ident: string): string { SnakeCaseFrom(ident, 0) }

  function ToVariant(idents: seq<string>, variant: nat): string
    requires variant < |idents|
  {
    SnakeCase(idents[variant])
  }

  /** The first variant of that name, from number `i` on. */
  function FromVariant(idents: seq<string>, name: string, i: nat): Option<nat>
    requires i <= |idents|
    decreases |idents| - i
  {
    if i == |idents| then None
    else if SnakeCase(idents[i]) == name then Some(i)
    else FromVariant(idents, name, i + 1)
  }

  /** No variant before this one has its name. */
  ghost predicate OwnsItsName(idents: seq<string>, variant: nat)
    requires variant < |idents|
  {
    forall i :: 0 <= i < variant ==> SnakeCase(idents[i]) != SnakeCase(idents[variant])
  }

  lemma {:induction false} FirstOfItsName(idents: seq<string>, variant: nat, i: nat)
    requires i <= variant < |idents|
    requires forall j :: 0 <= j < i ==> SnakeCase(idents[j]) != SnakeCase(idents[variant])
    ensures FromVariant(idents, ToVariant(idents, variant), i) == Some(variant) <==> OwnsItsName(idents, variant)
    ensures FromVariant(idents, ToVariant(idents, variant), i).Some?
    decreases variant - i
  {
    if SnakeCase(idents[i]) != SnakeCase(idents[variant]) {
      FirstOfItsName(idents, variant, i + 1);
    }
  }

  /** Two variants can share a name, and then the later one reads back as the earlier. */
  lemma AcronymsCollide()
    ensures SnakeCase("AB") == SnakeCase("Ab") == "ab"
    ensures FromVariant(["AB", "Ab"], ToVariant(["AB", "Ab"], 1), 0) == Some(0)
  {
    assert SnakeCaseFrom("AB", 1) == "b" + SnakeCaseFrom("AB", 2);
    assert SnakeCaseFrom("Ab", 1) == "b" + SnakeCaseFrom("Ab", 2);
  }

  /** What a name keeps of an identifier. */
  function Letters(text: string): string {
    if text == "" then "" else (if text[0] == '_' then "" else [text[0]]) + Letters(text[1..])
  }

  function Lowered(ident: string): string {
    if ident == "" then "" else [ToLower(ident[0])] + Lowered(ident[1..])
  }

  lemma {:induction false} LettersAppend(a: string, b: string)
    ensures Letters(a + b) == Letters(a) + Letters(b)
  {
    if a == "" {
      assert a + b == b;
    } else {
      assert (a + b)[1..] == a[1..] + b;
      LettersAppend(a[1..], b);
    }
  }

  lemma {:induction false} LettersFrom(ident: string, i: nat)
    requires i <= |ident| && forall j :: 0 <= j < |ident| ==> ident[j] != '_'
    ensures Letters(SnakeCaseFrom(ident, i)) == Lowered(ident[i..])
    decreases |ident| - i
  {
    if i < |ident| {
      var mark, letter := if StartsWord(ident, i) then "_" else "", [ToLower(ident[i])];
      var rest := SnakeCaseFrom(ident, i + 1);
      LettersFrom(ident, i + 1);
      LettersAppend(mark, letter + rest);
      LettersAppend(letter, rest);
      assert mark + letter + rest == mark + (letter + rest);
      assert ident[i..][1..] == ident[i + 1..];
      assert letter[1..] == "" && mark != "" ==> mark[1..] == "";
    }
  }

  ghost predicate Marked(name: string) { name != "" && name[0] == '_' }

  ghost predicate LeadsWord(ident: string, i: nat)
    requires i < |ident|
  {
    && i > 0 && 'A' <= ident[i] <= 'Z'
    && ('a' <= ident[i - 1] <= 'z' || '0' <= ident[i - 1] <= '9' || (i + 1 < |ident| && 'a' <= ident[i + 1] <= 'z'))
  }

  lemma MarkedExactly(ident: string, i: nat)
    requires i < |ident| && ident[i] != '_'
    ensures Marked(SnakeCaseFrom(ident, i)) <==> LeadsWord(ident, i)
  {
    assert ToLower(ident[i]) != '_';
  }

  /** A name is its identifier in lower case, but for the underscores it gains: one before each capital that
      follows a lower letter or a digit, or is followed by a lower letter, the first aside. */
  lemma NameKeepsLetters(ident: string)
    requires forall j :: 0 <= j < |ident| ==> ident[j] != '_'
    ensures Letters(SnakeCase(ident)) == Lowered(ident)
    ensures forall i: nat :: i < |ident| ==> (Marked(SnakeCaseFrom(ident, i)) <==> LeadsWord(ident, i))
  {
    LettersFrom(ident, 0);
    assert ident[0..] == ident;
    forall i: nat | i < |ident| ensures Marked(SnakeCaseFrom(ident, i)) <==> LeadsWord(ident, i) {
      MarkedExactly(ident, i);
    }
  }

  /** Words, digits and acronyms told apart, or not. */
  lemma WordsAreSetApart()
    ensures SnakeCase("aB") == "a_b" && SnakeCase("1B") == "1_b"
    ensures SnakeCase("ABc") == "a_bc" && SnakeCase("AB") == "ab" && SnakeCase("AB1") == "ab1"
  {
    assert SnakeCaseFrom("aB", 1) == "_b" + SnakeCaseFrom("aB", 2);
    assert SnakeCaseFrom("1B", 1) == "_b" + SnakeCaseFrom("1B", 2);
    assert SnakeCaseFrom("AB1", 2) == "1" + SnakeCaseFrom("AB1", 3);
    assert SnakeCaseFrom("AB1", 1) == "b" + SnakeCaseFrom("AB1", 2);
    assert SnakeCaseFrom("ABc", 2) == "c" + SnakeCaseFrom("ABc", 3);
    assert SnakeCaseFrom("ABc", 1) == "_b" + SnakeCaseFrom("ABc", 2);
    assert SnakeCaseFrom("AB", 1) == "b" + SnakeCaseFrom("AB", 2);
  }

  // --- Neutral values

  datatype IntegerValue = Signed(n: int) | Unsigned(n: int)

  datatype FieldValue = IntValue(integer: IntegerValue) | FloatValue(f: Float) | BoolValue(b: bool)
                      | StrValue(s: string) | EnumValue(name: string) | Null

  datatype Error = IntegerError(field: string, integer: IntegerValue, target: IntegerKind)
                 | FloatError(field: string, f: Float, float: FloatKind)

  /** A value of this field, as the derive describes it. */
  function Described(scalar: Scalar, data: Data): FieldValue {
    match (scalar, data)
    case (Int(kind), IntData(n)) => IntValue(if kind.I? then Signed(n) else Unsigned(n))
    case (Float(_), FloatData(f)) => FloatValue(f)
    case (Bool, BoolData(b)) => BoolValue(b)
    case (Str, StrData(s)) => StrValue(s)
    case (Enum(idents), EnumData(variant)) => EnumValue(if variant < |idents| then ToVariant(idents, variant) else "")
    case _ => Null
  }

  /** The `FieldValue` of a field. */
  function DefaultValue(kind: Kind, held: Option<Data>): FieldValue {
    match held
    case None => Null
    case Some(data) => Described(kind.scalar, data)
  }

  function ReadFloat(rounding: Rounding, field: string, kind: FloatKind, f: Float): Result<Float, Error> {
    match kind
    case F64 => Success(f)
    case F32 =>
      match f
      case Finite(value) =>
        if -F32_MAX <= value <= F32_MAX then Success(Finite(rounding.toSingle(value)))
        else Failure(FloatError(field, f, F32))
      case NegativeZero => Success(f)
      case _ => Failure(FloatError(field, f, F32))
  }

  /** A value read back for a scalar of a field: none where it is not of this kind. */
  function ReadScalar(rounding: Rounding, field: string, scalar: Scalar, value: FieldValue): Result<Option<Data>, Error>
  {
    match (scalar, value)
    case (Int(kind), IntValue(integer)) =>
      if kind.Holds(integer.n) then Success(Some(IntData(integer.n))) else Failure(IntegerError(field, integer, kind))
    case (Float(kind), FloatValue(f)) =>
      (match ReadFloat(rounding, field, kind, f)
       case Success(read) => Success(Some(FloatData(read)))
       case Failure(error) => Failure(error))
    case (Bool, BoolValue(b)) => Success(Some(BoolData(b)))
    case (Str, StrValue(s)) => Success(Some(StrData(s)))
    case (Enum(idents), EnumValue(name)) =>
      Success(match FromVariant(idents, name, 0) case Some(variant) => Some(EnumData(variant)) case None => None)
    case _ => Success(None)
  }

  /** A field read back: a null as no value, where it may have none, and anything not of its kind, or missing,
      as its default. */
  function Read(rounding: Rounding, field: Field, value: Option<FieldValue>, default: Option<Data>)
    : Result<Option<Data>, Error>
  {
    if value.None? then Success(default)
    else if field.kind.Optional? && value.value.Null? then Success(None)
    else match ReadScalar(rounding, field.name, field.kind.scalar, value.value)
      case Failure(error) => Failure(error)
      case Success(None) => Success(default)
      case Success(Some(data)) => Success(Some(data))
  }

  /** The config of these values, one per field in order, or the first that does not fit its field. */
  function FromFields(rounding: Rounding, fields: seq<Field>, values: seq<FieldValue>, defaults: seq<Option<Data>>)
    : Result<seq<Option<Data>>, Error>
    requires |defaults| == |fields|
  {
    if fields == [] then Success([])
    else match Read(rounding, fields[0], if values == [] then None else Some(values[0]), defaults[0])
      case Failure(error) => Failure(error)
      case Success(held) =>
        match FromFields(rounding, fields[1..], if values == [] then [] else values[1..], defaults[1..])
        case Failure(error) => Failure(error)
        case Success(rest) => Success([held] + rest)
  }

  // --- A node's values

  datatype ConstValue = NullConst | FloatConst(f: Float) | IntConst(n: int) | BoolConst(b: bool)
                      | StringConst(s: string) | FsPath(path: string) | FsPaths(paths: seq<string>)
                      | EnumConst(name: string)

  datatype DynamicValue = Unbound | Static(value: ConstValue) | Custom

  /** A neutral value as an authored constant; none where the conversion panics. */
  function AsConst(value: FieldValue): Option<ConstValue> {
    match value
    case IntValue(integer) => if FitsI64(integer.n) then Some(IntConst(integer.n)) else None
    case FloatValue(f) => Some(FloatConst(f))
    case BoolValue(b) => Some(BoolConst(b))
    case StrValue(s) => Some(StringConst(s))
    case EnumValue(name) => Some(EnumConst(name))
    case Null => Some(NullConst)
  }

  /** A float cast to an integer: towards zero, saturating, and zero for what is no number. */
  function Truncated(f: Float): int {
    match f
    case Finite(r) =>
      var n := if r >= 0.0 then r.Floor else -((-r).Floor);
      if n < I64_MIN then I64_MIN else if n > I64_MAX then I64_MAX else n
    case NegativeZero => 0
    case Infinite(positive) => if positive then I64_MAX else I64_MIN
    case NotANumber(_) => 0
  }

  /** The integer a finite float is cast to: the nearest towards zero that an i64 holds, and no other. */
  lemma CastsTowardsZero(r: real, n: int)
    requires FitsI64(n)
    ensures Truncated(Finite(r)) == n <==>
      || (0.0 <= r && n as real <= r && (r < (n + 1) as real || n == I64_MAX) && 0 <= n)
      || (r < 0.0 && r <= n as real && ((n - 1) as real < r || n == I64_MIN) && n <= 0)
  {
    var f := if r >= 0.0 then r.Floor else -((-r).Floor);
    assert r >= 0.0 ==> f as real <= r < (f + 1) as real;
    assert r < 0.0 ==> (f - 1) as real < r <= f as real;
  }

  /** The constant as a value of this kind, coerced as scalars are; none where the read panics. */
  function Coerced(rounding: Rounding, scalar: Scalar, value: ConstValue): Option<FieldValue> {
    match (scalar, value)
    case (Int(_), IntConst(n)) => Some(IntValue(Signed(n)))
    case (Int(_), FloatConst(f)) => Some(IntValue(Signed(Truncated(f))))
    case (Int(_), BoolConst(b)) => Some(IntValue(Signed(if b then 1 else 0)))
    case (Float(_), FloatConst(f)) => Some(FloatValue(f))
    case (Float(_), IntConst(n)) => Some(FloatValue(Finite(rounding.toDouble(n))))
    case (Float(_), BoolConst(b)) => Some(FloatValue(Finite(if b then 1.0 else 0.0)))
    case (Bool, BoolConst(b)) => Some(BoolValue(b))
    case (Bool, IntConst(n)) => Some(BoolValue(n != 0))
    case (Bool, FloatConst(f)) => Some(BoolValue(f != NegativeZero && f != Finite(0.0)))
    case (Str, StringConst(s)) => Some(StrValue(s))
    case (Enum(_), EnumConst(name)) => Some(EnumValue(name))
    case _ => None
  }

  /** An input's value as a neutral value; none where the read panics. */
  function AsField(rounding: Rounding, kind: Kind, value: DynamicValue): Option<FieldValue> {
    if kind.Optional? && (value.Unbound? || value == Static(NullConst)) then Some(Null)
    else if value.Static? then Coerced(rounding, kind.scalar, value.value)
    else None
  }

  // --- A config's inputs, and the config built from them

  /** The constants a config's fields are authored as; none where one panics. */
  function Inputs(fields: seq<Field>, config: seq<Option<Data>>): Option<seq<ConstValue>>
    requires |config| == |fields|
  {
    if fields == [] then Some([])
    else match AsConst(DefaultValue(fields[0].kind, config[0]))
      case None => None
      case Some(value) =>
        match Inputs(fields[1..], config[1..])
        case None => None
        case Some(rest) => Some([value] + rest)
  }

  /** The neutral values of a node's inputs; none where a read panics. */
  function Neutral(rounding: Rounding, fields: seq<Field>, values: seq<DynamicValue>): Option<seq<FieldValue>> {
    if fields == [] || values == [] then Some([])
    else match AsField(rounding, fields[0].kind, values[0])
      case None => None
      case Some(value) =>
        match Neutral(rounding, fields[1..], values[1..])
        case None => None
        case Some(rest) => Some([value] + rest)
  }

  datatype Built = Panicked | Rejected(error: Error) | Config(config: seq<Option<Data>>)

  /** The config the inputs' values hold. */
  function Build(rounding: Rounding, fields: seq<Field>, defaults: seq<Option<Data>>, values: seq<DynamicValue>): Built
    requires |defaults| == |fields|
  {
    match Neutral(rounding, fields, values)
    case None => Panicked
    case Some(neutral) =>
      match FromFields(rounding, fields, neutral, defaults)
      case Failure(error) => Rejected(error)
      case Success(config) => Config(config)
  }

  function Bound(values: seq<ConstValue>): (bound: seq<DynamicValue>)
    ensures |bound| == |values|
  {
    if values == [] then [] else [Static(values[0])] + Bound(values[1..])
  }

  // --- Unedited inputs

  /** An integer the inputs can carry. */
  predicate Carried(held: Option<Data>) {
    held.Some? && held.value.IntData? ==> FitsI64(held.value.n)
  }

  /** What its own inputs give back: a finite f32, and a variant that is the first of its name. */
  ghost predicate GivenBack(field: Field, held: Option<Data>) {
    match held
    case None => true
    case Some(data) =>
      match (field.kind.scalar, data)
      case (Float(kind), FloatData(f)) => kind == F32 ==> f.IsFinite()
      case (Enum(idents), EnumData(variant)) => variant < |idents| && OwnsItsName(idents, variant)
      case _ => true
  }

  ghost predicate AllCarried(config: seq<Option<Data>>) {
    forall i :: 0 <= i < |config| ==> Carried(config[i])
  }

  ghost predicate AllGivenBack(fields: seq<Field>, config: seq<Option<Data>>)
    requires |config| == |fields|
  {
    forall i :: 0 <= i < |fields| ==> GivenBack(fields[i], config[i])
  }

  lemma FieldIsCarried(rounding: Rounding, field: Field, held: Option<Data>)
    requires IsHeld(rounding, field, held)
    ensures AsConst(DefaultValue(field.kind, held)).Some? <==> Carried(held)
  {
  }

  /** One field through its input and back, whatever its default. */
  lemma FieldGivenBack(rounding: Rounding, field: Field, held: Option<Data>, default: Option<Data>)
    requires rounding.Valid() && IsHeld(rounding, field, held) && Carried(held)
    ensures var value := AsConst(DefaultValue(field.kind, held));
      && value.Some? && AsField(rounding, field.kind, Static(value.value)).Some?
      && (Read(rounding, field, AsField(rounding, field.kind, Static(value.value)), default) == Success(held)
          <==> GivenBack(field, held))
  {
    if held.Some? && field.kind.scalar.Enum? {
      FirstOfItsName(field.kind.scalar.idents, held.value.variant, 0);
    }
  }

  lemma {:induction false} AllAreCarried(rounding: Rounding, fields: seq<Field>, config: seq<Option<Data>>)
    requires IsConfig(rounding, fields, config)
    ensures Inputs(fields, config).Some? <==> AllCarried(config)
    ensures Inputs(fields, config).Some? ==> |Inputs(fields, config).value| == |fields|
  {
    if fields != [] {
      FieldIsCarried(rounding, fields[0], config[0]);
      AllAreCarried(rounding, fields[1..], config[1..]);
      assert AllCarried(config) <==> Carried(config[0]) && AllCarried(config[1..]) by {
        assert forall i :: 1 <= i < |config| ==> config[i] == config[1..][i - 1];
      }
    }
  }

  /** The constant that authors what a field holds: of the field's own kind, an enum's by its variant's name. */
  ghost predicate Authors(scalar: Scalar, held: Option<Data>, value: ConstValue) {
    match value
    case NullConst => held == None
    case IntConst(n) => held == Some(IntData(n)) && FitsI64(n)
    case FloatConst(f) => held == Some(FloatData(f))
    case BoolConst(b) => held == Some(BoolData(b))
    case StringConst(s) => held == Some(StrData(s))
    case EnumConst(name) =>
      && held.Some? && held.value.EnumData? && scalar.Enum? && held.value.variant < |scalar.idents|
      && name == SnakeCase(scalar.idents[held.value.variant])
    case _ => false
  }

  lemma FieldIsAuthored(rounding: Rounding, field: Field, held: Option<Data>)
    requires IsHeld(rounding, field, held)
    ensures var value := AsConst(DefaultValue(field.kind, held));
      value.Some? ==> Authors(field.kind.scalar, held, value.value)
  {
  }

  /** An input is authored as what its field holds, and not as a value of another kind that reads back the same. */
  lemma {:induction false} InputsAuthorTheConfig(rounding: Rounding, fields: seq<Field>, config: seq<Option<Data>>,
                                                 i: nat)
    requires IsConfig(rounding, fields, config) && Inputs(fields, config).Some? && i < |fields|
    ensures |Inputs(fields, config).value| == |fields|
    ensures Authors(fields[i].kind.scalar, config[i], Inputs(fields, config).value[i])
  {
    FieldIsAuthored(rounding, fields[0], config[0]);
    if |fields| > 1 {
      InputsAuthorTheConfig(rounding, fields[1..], config[1..], if i == 0 then 0 else i - 1);
    }
  }

  lemma {:induction false} AllAreGivenBack(rounding: Rounding, fields: seq<Field>, config: seq<Option<Data>>,
                                           defaults: seq<Option<Data>>)
    requires rounding.Valid() && IsConfig(rounding, fields, config) && |defaults| == |fields| && AllCarried(config)
    ensures Inputs(fields, config).Some?
    ensures var neutral := Neutral(rounding, fields, Bound(Inputs(fields, config).value));
      && neutral.Some?
      && (FromFields(rounding, fields, neutral.value, defaults) == Success(config) <==> AllGivenBack(fields, config))
  {
    if fields != [] {
      FieldGivenBack(rounding, fields[0], config[0], defaults[0]);
      AllAreGivenBack(rounding, fields[1..], config[1..], defaults[1..]);
      FirstAndRest(fields, config);
    }
  }

  lemma FirstAndRest(fields: seq<Field>, config: seq<Option<Data>>)
    requires |config| == |fields| > 0
    ensures AllGivenBack(fields, config) <==> GivenBack(fields[0], config[0]) && AllGivenBack(fields[1..], config[1..])
    ensures forall held, rest :: [held] + rest == config <==> held == config[0] && rest == config[1..]
  {
    assert forall i :: 1 <= i < |config| ==> config[i] == config[1..][i - 1] && fields[i] == fields[1..][i - 1];
    forall held, rest: seq<Option<Data>> ensures [held] + rest == config <==> held == config[0] && rest == config[1..] {
      assert ([held] + rest)[1..] == rest;
    }
  }

  /** A config built from the inputs that carry it is that config, whatever the defaults, exactly if its f32s are
      finite and its variants the first of their names; the inputs can be declared exactly if its integers fit
      an i64. With the defaults themselves, it is the config of unedited inputs. */
  lemma UneditedInputsGiveTheConfig(rounding: Rounding, fields: seq<Field>, config: seq<Option<Data>>,
                                    defaults: seq<Option<Data>>)
    requires rounding.Valid() && IsConfig(rounding, fields, config) && |defaults| == |fields|
    ensures Inputs(fields, config).Some? <==> AllCarried(config)
    ensures AllCarried(config) ==>
      (Build(rounding, fields, defaults, Bound(Inputs(fields, config).value)) == Config(config)
       <==> AllGivenBack(fields, config))
  {
    AllAreCarried(rounding, fields, config);
    if AllCarried(config) {
      AllAreGivenBack(rounding, fields, config, defaults);
    }
  }

  // --- Edited inputs

  lemma {:induction false} VariantExists(idents: seq<string>, name: string, i: nat)
    requires i <= |idents|
    ensures var variant := FromVariant(idents, name, i); variant.Some? ==> variant.value < |idents|
    decreases |idents| - i
  {
    if i < |idents| && SnakeCase(idents[i]) != name {
      VariantExists(idents, name, i + 1);
    }
  }

  lemma ReadIsHeld(rounding: Rounding, field: Field, value: Option<FieldValue>, default: Option<Data>)
    requires rounding.Valid() && IsHeld(rounding, field, default)
    ensures var read := Read(rounding, field, value, default); read.Success? ==> IsHeld(rounding, field, read.value)
  {
    if field.kind.scalar.Enum? && value.Some? && value.value.EnumValue? {
      VariantExists(field.kind.scalar.idents, value.value.name, 0);
    }
  }

  lemma {:induction false} FieldsAreHeld(rounding: Rounding, fields: seq<Field>, values: seq<FieldValue>,
                                         defaults: seq<Option<Data>>)
    requires rounding.Valid() && IsConfig(rounding, fields, defaults)
    ensures var read := FromFields(rounding, fields, values, defaults);
      read.Success? ==> IsConfig(rounding, fields, read.value)
  {
    if fields != [] {
      ReadIsHeld(rounding, fields[0], if values == [] then None else Some(values[0]), defaults[0]);
      FieldsAreHeld(rounding, fields[1..], if values == [] then [] else values[1..], defaults[1..]);
    }
  }

  /** Whatever its inputs are edited to, a config that is built holds only values of its fields' types. */
  lemma BuiltIsAConfig(rounding: Rounding, fields: seq<Field>, defaults: seq<Option<Data>>, values: seq<DynamicValue>)
    requires rounding.Valid() && IsConfig(rounding, fields, defaults)
    ensures var built := Build(rounding, fields, defaults, values);
      built.Config? ==> IsConfig(rounding, fields, built.config)
  {
    var neutral := Neutral(rounding, fields, values);
    if neutral.Some? {
      FieldsAreHeld(rounding, fields, neutral.value, defaults);
    }
  }

  /** An infinite f32, alone in its config, is refused when it comes back. */
  lemma InfiniteIsRefused(rounding: Rounding)
    requires rounding.Valid()
    ensures var fields, config := [Field("gain", Required(Float(F32)))], [Some(FloatData(Infinite(true)))];
      && IsConfig(rounding, fields, config) && Inputs(fields, config) == Some([FloatConst(Infinite(true))])
      && Build(rounding, fields, config, [Static(FloatConst(Infinite(true)))])
         == Rejected(FloatError("gain", Infinite(true), F32))
  {
    var field, value := Field("gain", Required(Float(F32))), FloatConst(Infinite(true));
    assert [field][1..] == [] && [Static(value)][1..] == [] && [Some(FloatData(Infinite(true)))][1..] == [];
    assert [value] + [] == [value] && [FloatValue(Infinite(true))] + [] == [FloatValue(Infinite(true))];
    assert Neutral(rounding, [field], [Static(value)]) == Some([FloatValue(Infinite(true))]);
  }

  /** A u64 past what an i64 holds cannot be declared as a default. */
  lemma LargeIntegerPanics(rounding: Rounding)
    requires rounding.Valid()
    ensures var fields, config := [Field("seed", Required(Int(U(64))))], [Some(IntData(I64_MAX + 1))];
      IsConfig(rounding, fields, config) && Inputs(fields, config) == None
  {
    Pow2Of64();
  }

  lemma Pow2Of64()
    ensures Pow2(64) == 0x1_0000_0000_0000_0000
  {
    Pow2Adds(8, 8);
    Pow2Adds(16, 16);
    Pow2Adds(32, 32);
  }

  lemma {:induction false} Pow2Adds(m: nat, n: nat)
    ensures Pow2(m + n) == Pow2(m) * Pow2(n)
  {
    if n > 0 {
      Pow2Adds(m, n - 1);
      assert Pow2(m) * Pow2(n) == 2 * (Pow2(m) * Pow2(n - 1));
    }
  }

  /** The integer types' ranges. */
  lemma TypesHold(n: int)
    ensures U(8).Holds(n) <==> 0 <= n <= 255
    ensures I(8).Holds(n) <==> -128 <= n <= 127
    ensures U(64).Holds(n) <==> 0 <= n < 0x1_0000_0000_0000_0000
    ensures I(64).Holds(n) <==> FitsI64(n)
  {
    Pow2Of64();
    assert Pow2(64) == 2 * Pow2(63);
    assert Pow2(8) == 256 && Pow2(7) == 128 by {
      Pow2Adds(4, 4);
      Pow2Adds(3, 4);
    }
  }

  lemma {:induction false} Pow2Grows(m: nat, n: nat)
    requires m <= n
    ensures 0 < Pow2(m) <= Pow2(n)
    decreases n
  {
    if m < n {
      Pow2Grows(m, n - 1);
    } else if m > 0 {
      Pow2Grows(m - 1, n - 1);
    }
  }

  /** An integer of any type of up to 128 bits is described, as itself, by a neutral integer of 128 bits. */
  lemma EveryIntegerIsDescribed(kind: IntegerKind, n: int)
    requires kind.bits <= 128 && kind.Holds(n)
    ensures var value := Described(Int(kind), IntData(n));
      && value.IntValue? && value.integer.n == n
      && match value.integer case Signed(m) => I(128).Holds(m) case Unsigned(m) => U(128).Holds(m)
  {
    if kind.I? {
      Pow2Grows(kind.bits - 1, 127);
    } else {
      Pow2Grows(kind.bits, 128);
    }
  }

  // --- What an input gives its field

  /** `n` is a float without what is after its point, at an i64's ends where it is past them, and zero for what is
      no number. */
  ghost predicate TowardsZero(f: Float, n: int) {
    match f
    case Finite(r) =>
      || (0.0 <= r && n as real <= r && (r < (n + 1) as real || n == I64_MAX) && 0 <= n <= I64_MAX)
      || (r < 0.0 && r <= n as real && ((n - 1) as real < r || n == I64_MIN) && I64_MIN <= n <= 0)
    case NegativeZero => n == 0
    case Infinite(positive) => n == if positive then I64_MAX else I64_MIN
    case NotANumber(_) => n == 0
  }

  ghost predicate NamesInteger(value: DynamicValue, n: int) {
    && value.Static?
    && match value.value
       case IntConst(m) => n == m
       case FloatConst(f) => TowardsZero(f, n)
       case BoolConst(b) => n == if b then 1 else 0
       case _ => false
  }

  ghost predicate NamesFloat(rounding: Rounding, value: DynamicValue, f: Float) {
    && value.Static?
    && match value.value
       case FloatConst(g) => f == g
       case IntConst(n) => f == Finite(rounding.toDouble(n))
       case BoolConst(b) => f == Finite(if b then 1.0 else 0.0)
       case _ => false
  }

  ghost predicate NamesTruth(value: DynamicValue, b: bool) {
    && value.Static?
    && match value.value
       case BoolConst(c) => b == c
       case IntConst(n) => b <==> n != 0
       case FloatConst(f) => b <==> f !in {Finite(0.0), NegativeZero}
       case _ => false
  }

  /** An optional field without a value. */
  ghost predicate LeftEmpty(field: Field, value: DynamicValue) {
    field.kind.Optional? && value in {Unbound, Static(NullConst)}
  }

  /** An input the node can read as its field's kind. */
  ghost predicate Readable(field: Field, value: DynamicValue) {
    || LeftEmpty(field, value)
    || (value.Static?
        && match field.kind.scalar
           case Int(_) => value.value.IntConst? || value.value.FloatConst? || value.value.BoolConst?
           case Float(_) => value.value.IntConst? || value.value.FloatConst? || value.value.BoolConst?
           case Bool => value.value.IntConst? || value.value.FloatConst? || value.value.BoolConst?
           case Str => value.value.StringConst?
           case Enum(_) => value.value.EnumConst?)
  }

  ghost predicate InF32(f: Float) { f.NegativeZero? || (f.Finite? && -F32_MAX <= f.value <= F32_MAX) }

  /** An integer its field's type does not hold, or a float that is no finite f32 of a field that is one. */
  ghost predicate RefusedAs(rounding: Rounding, field: Field, value: DynamicValue, error: Error) {
    && !LeftEmpty(field, value)
    && match (field.kind.scalar, error)
       case (Int(kind), IntegerError(name, integer, target)) =>
         && name == field.name && target == kind
         && integer.Signed? && NamesInteger(value, integer.n) && !kind.Holds(integer.n)
       case (Float(F32), FloatError(name, f, target)) =>
         name == field.name && target == F32 && NamesFloat(rounding, value, f) && !InF32(f)
       case _ => false
  }

  ghost predicate Refused(rounding: Rounding, field: Field, value: DynamicValue) {
    exists error :: RefusedAs(rounding, field, value, error)
  }

  /** The first variant of this name. */
  ghost predicate FirstNamed(idents: seq<string>, name: string, variant: nat) {
    variant < |idents| && SnakeCase(idents[variant]) == name
    && forall u :: 0 <= u < variant ==> SnakeCase(idents[u]) != name
  }

  /** What a field holds: nothing where it was left empty, the value its input names, or its default, for a name
      that is no variant's. */
  ghost predicate Given(rounding: Rounding, field: Field, value: DynamicValue, default: Option<Data>,
                        held: Option<Data>)
  {
    if LeftEmpty(field, value) then held == None
    else
      match field.kind.scalar
      case Int(_) => held.Some? && held.value.IntData? && NamesInteger(value, held.value.n)
      case Float(F64) => held.Some? && held.value.FloatData? && NamesFloat(rounding, value, held.value.f)
      case Float(F32) =>
        exists f :: NamesFloat(rounding, value, f)
          && held == Some(FloatData(if f.Finite? then Finite(rounding.toSingle(f.value)) else f))
      case Bool => held.Some? && held.value.BoolData? && NamesTruth(value, held.value.b)
      case Str => held.Some? && held.value.StrData? && value == Static(StringConst(held.value.s))
      case Enum(idents) =>
        value.Static? && value.value.EnumConst?
        && if exists v: nat :: FirstNamed(idents, value.value.name, v)
           then held.Some? && held.value.EnumData? && FirstNamed(idents, value.value.name, held.value.variant)
           else held == default
  }

  lemma TruncatedIsTowardsZero(f: Float, n: int)
    ensures Truncated(f) == n <==> TowardsZero(f, n)
  {
    if f.Finite? && FitsI64(n) {
      CastsTowardsZero(f.value, n);
    }
  }

  lemma {:induction false} FromVariantIsFirst(idents: seq<string>, name: string, i: nat)
    requires i <= |idents| && forall u :: 0 <= u < i ==> SnakeCase(idents[u]) != name
    ensures var variant := FromVariant(idents, name, i);
      match variant
      case Some(v) => FirstNamed(idents, name, v)
      case None => forall v: nat :: !FirstNamed(idents, name, v)
    decreases |idents| - i
  {
    if i < |idents| && SnakeCase(idents[i]) != name {
      FromVariantIsFirst(idents, name, i + 1);
    }
  }

  lemma FieldIsReadable(rounding: Rounding, field: Field, value: DynamicValue)
    ensures AsField(rounding, field.kind, value).Some? <==> Readable(field, value)
  {
  }

  lemma OneInteger(value: DynamicValue, m: int, n: int)
    requires NamesInteger(value, m) && NamesInteger(value, n)
    ensures m == n
  {
    if value.value.FloatConst? {
      TruncatedIsTowardsZero(value.value.f, m);
      TruncatedIsTowardsZero(value.value.f, n);
    }
  }

  /** One field, read from its input. */
  lemma IntegerIsBuilt(rounding: Rounding, field: Field, value: DynamicValue, default: Option<Data>)
    requires field.kind.scalar.Int? && Readable(field, value)
    ensures BuiltFromOne(rounding, field, value, default)
  {
    if value.Static? && value.value.FloatConst? {
      TruncatedIsTowardsZero(value.value.f, Truncated(value.value.f));
    }
    var read := AsField(rounding, field.kind, value);
    if !LeftEmpty(field, value) {
      var n := read.value.integer.n;
      assert NamesInteger(value, n);
      if !field.kind.scalar.integer.Holds(n) {
        assert RefusedAs(rounding, field, value, IntegerError(field.name, Signed(n), field.kind.scalar.integer));
      } else if error :| RefusedAs(rounding, field, value, error) {
        OneInteger(value, n, error.integer.n);
      }
    }
  }

  /** What one field comes to, by its input. */
  ghost predicate BuiltFromOne(rounding: Rounding, field: Field, value: DynamicValue, default: Option<Data>) {
    var neutral := AsField(rounding, field.kind, value);
    && neutral.Some?
    && match Read(rounding, field, neutral, default)
       case Failure(error) => RefusedAs(rounding, field, value, error)
       case Success(held) => !Refused(rounding, field, value) && Given(rounding, field, value, default, held)
  }

  lemma FloatIsBuilt(rounding: Rounding, field: Field, value: DynamicValue, default: Option<Data>)
    requires field.kind.scalar.Float? && Readable(field, value)
    ensures BuiltFromOne(rounding, field, value, default)
  {
    var read := AsField(rounding, field.kind, value);
    if !LeftEmpty(field, value) {
      assert NamesFloat(rounding, value, read.value.f);
    }
  }

  lemma OtherIsBuilt(rounding: Rounding, field: Field, value: DynamicValue, default: Option<Data>)
    requires !field.kind.scalar.Int? && !field.kind.scalar.Float? && Readable(field, value)
    ensures BuiltFromOne(rounding, field, value, default)
  {
    if field.kind.scalar.Enum? && value.Static? && value.value.EnumConst? {
      FromVariantIsFirst(field.kind.scalar.idents, value.value.name, 0);
    }
  }

  lemma FieldIsBuilt(rounding: Rounding, field: Field, value: DynamicValue, default: Option<Data>)
    requires Readable(field, value)
    ensures BuiltFromOne(rounding, field, value, default)
  {
    match field.kind.scalar {
      case Int(_) => IntegerIsBuilt(rounding, field, value, default);
      case Float(_) => FloatIsBuilt(rounding, field, value, default);
      case _ => OtherIsBuilt(rounding, field, value, default);
    }
  }

  // --- What a build comes to

  /** Input `i` has a field. */
  ghost predicate Paired(fields: seq<Field>, values: seq<DynamicValue>, i: nat) { i < |fields| && i < |values| }

  ghost predicate AllReadable(fields: seq<Field>, values: seq<DynamicValue>) {
    forall i: nat :: Paired(fields, values, i) ==> Readable(fields[i], values[i])
  }

  ghost predicate NoneRefused(rounding: Rounding, fields: seq<Field>, values: seq<DynamicValue>) {
    forall i: nat :: Paired(fields, values, i) ==> !Refused(rounding, fields[i], values[i])
  }

  /** The first field refused, and why. */
  ghost predicate FirstRefused(rounding: Rounding, fields: seq<Field>, values: seq<DynamicValue>, error: Error) {
    exists i: nat :: Paired(fields, values, i) && RefusedAs(rounding, fields[i], values[i], error)
      && forall j: nat :: j < i ==> !Refused(rounding, fields[j], values[j])
  }

  /** Each field holds what its input gives it, or, without an input, its default. */
  ghost predicate AllGiven(rounding: Rounding, fields: seq<Field>, values: seq<DynamicValue>,
                           defaults: seq<Option<Data>>, config: seq<Option<Data>>)
    requires |defaults| == |fields|
  {
    && |config| == |fields|
    && forall i: nat :: i < |fields| ==>
         if i < |values| then Given(rounding, fields[i], values[i], defaults[i], config[i])
         else config[i] == defaults[i]
  }

  lemma {:induction false} PanicsExactlyWhenUnreadable(rounding: Rounding, fields: seq<Field>,
                                                       values: seq<DynamicValue>)
    ensures Neutral(rounding, fields, values).Some? <==> AllReadable(fields, values)
  {
    if fields != [] && values != [] {
      FieldIsReadable(rounding, fields[0], values[0]);
      PanicsExactlyWhenUnreadable(rounding, fields[1..], values[1..]);
      if AllReadable(fields, values) {
        forall i: nat | Paired(fields[1..], values[1..], i) ensures Readable(fields[1..][i], values[1..][i]) {
          assert Paired(fields, values, i + 1);
        }
      }
      if Neutral(rounding, fields, values).Some? {
        forall i: nat | Paired(fields, values, i) ensures Readable(fields[i], values[i]) {
          assert i > 0 ==> Paired(fields[1..], values[1..], i - 1);
        }
      }
    }
  }

  /** The first field, and the rest. */
  lemma RefusedAfterFirst(rounding: Rounding, fields: seq<Field>, values: seq<DynamicValue>, error: Error)
    requires fields != [] && values != [] && !Refused(rounding, fields[0], values[0])
    requires FirstRefused(rounding, fields[1..], values[1..], error)
    ensures FirstRefused(rounding, fields, values, error)
  {
    var i: nat :| Paired(fields[1..], values[1..], i) && RefusedAs(rounding, fields[1..][i], values[1..][i], error)
      && forall j: nat :: j < i ==> !Refused(rounding, fields[1..][j], values[1..][j]);
    assert Paired(fields, values, i + 1);
    forall j: nat | j < i + 1 ensures !Refused(rounding, fields[j], values[j]) {
      if j > 0 {
        assert fields[j] == fields[1..][j - 1] && values[j] == values[1..][j - 1];
      }
    }
  }

  lemma NoneAfterFirst(rounding: Rounding, fields: seq<Field>, values: seq<DynamicValue>)
    requires fields != [] && values != [] && !Refused(rounding, fields[0], values[0])
    requires NoneRefused(rounding, fields[1..], values[1..])
    ensures NoneRefused(rounding, fields, values)
  {
    forall i: nat | Paired(fields, values, i) ensures !Refused(rounding, fields[i], values[i]) {
      if i > 0 {
        assert Paired(fields[1..], values[1..], i - 1);
      }
    }
  }

  lemma GivenAfterFirst(rounding: Rounding, fields: seq<Field>, values: seq<DynamicValue>, defaults: seq<Option<Data>>,
                        held: Option<Data>, rest: seq<Option<Data>>)
    requires fields != [] && |defaults| == |fields|
    requires if values != [] then Given(rounding, fields[0], values[0], defaults[0], held) else held == defaults[0]
    requires AllGiven(rounding, fields[1..], if values == [] then [] else values[1..], defaults[1..], rest)
    ensures AllGiven(rounding, fields, values, defaults, [held] + rest)
  {
    var config, values' := [held] + rest, if values == [] then [] else values[1..];
    forall i: nat | i < |fields|
      ensures if i < |values| then Given(rounding, fields[i], values[i], defaults[i], config[i])
              else config[i] == defaults[i]
    {
      if i > 0 {
        assert fields[i] == fields[1..][i - 1] && defaults[i] == defaults[1..][i - 1] && config[i] == rest[i - 1];
        assert i < |values| ==> values[i] == values'[i - 1];
      }
    }
  }

  /** What the neutral values of readable inputs come to. */
  ghost predicate BuiltFromAll(rounding: Rounding, fields: seq<Field>, values: seq<DynamicValue>,
                               defaults: seq<Option<Data>>, read: Result<seq<Option<Data>>, Error>)
    requires |defaults| == |fields|
  {
    match read
    case Failure(error) => FirstRefused(rounding, fields, values, error)
    case Success(config) =>
      NoneRefused(rounding, fields, values) && AllGiven(rounding, fields, values, defaults, config)
  }

  lemma {:induction false} FieldsAreBuilt(rounding: Rounding, fields: seq<Field>, values: seq<DynamicValue>,
                                          defaults: seq<Option<Data>>)
    requires |defaults| == |fields| && Neutral(rounding, fields, values).Some?
    ensures BuiltFromAll(rounding, fields, values, defaults,
                         FromFields(rounding, fields, Neutral(rounding, fields, values).value, defaults))
  {
    if fields != [] {
      var values' := if values == [] then [] else values[1..];
      FieldsAreBuilt(rounding, fields[1..], values', defaults[1..]);
      var rest := FromFields(rounding, fields[1..], Neutral(rounding, fields[1..], values').value, defaults[1..]);
      if values == [] {
        if rest.Success? {
          GivenAfterFirst(rounding, fields, values, defaults, defaults[0], rest.value);
        }
      } else {
        FirstIsBuilt(rounding, fields, values, defaults, rest);
      }
    }
  }

  lemma FirstIsBuilt(rounding: Rounding, fields: seq<Field>, values: seq<DynamicValue>, defaults: seq<Option<Data>>,
                     rest: Result<seq<Option<Data>>, Error>)
    requires fields != [] && values != [] && |defaults| == |fields| && Neutral(rounding, fields, values).Some?
    requires rest == FromFields(rounding, fields[1..], Neutral(rounding, fields[1..], values[1..]).value, defaults[1..])
    requires BuiltFromAll(rounding, fields[1..], values[1..], defaults[1..], rest)
    ensures BuiltFromAll(rounding, fields, values, defaults,
                         FromFields(rounding, fields, Neutral(rounding, fields, values).value, defaults))
  {
    var neutral := Neutral(rounding, fields, values).value;
    assert neutral[1..] == Neutral(rounding, fields[1..], values[1..]).value;
    FieldIsReadable(rounding, fields[0], values[0]);
    FieldIsBuilt(rounding, fields[0], values[0], defaults[0]);
    assert Paired(fields, values, 0);
    var first := Read(rounding, fields[0], Some(neutral[0]), defaults[0]);
    if first.Success? {
      if rest.Failure? {
        RefusedAfterFirst(rounding, fields, values, rest.error);
      } else {
        NoneAfterFirst(rounding, fields, values);
        GivenAfterFirst(rounding, fields, values, defaults, first.value, rest.value);
      }
    }
  }

  /** What any inputs build: they panic exactly if one cannot be read as its field's kind; else the config is
      refused exactly if one is an integer its field's type does not hold, or no finite f32 where its field is one,
      with the error of the first; and else each field holds what its input gives it. */
  lemma BuildExactly(rounding: Rounding, fields: seq<Field>, defaults: seq<Option<Data>>, values: seq<DynamicValue>)
    requires |defaults| == |fields|
    ensures var built := Build(rounding, fields, defaults, values);
      && (built.Panicked? <==> !AllReadable(fields, values))
      && (built.Rejected? <==> AllReadable(fields, values) && !NoneRefused(rounding, fields, values))
      && (built.Rejected? ==> FirstRefused(rounding, fields, values, built.error))
      && (built.Config? ==> AllGiven(rounding, fields, values, defaults, built.config))
  {
    PanicsExactlyWhenUnreadable(rounding, fields, values);
    if AllReadable(fields, values) {
      FieldsAreBuilt(rounding, fields, values, defaults);
    }
  }

  /** An input of -1 for a u32 is refused, and its field's default is not taken instead. */
  lemma NegativeIsRefused(rounding: Rounding)
    ensures Build(rounding, [Field("tile_size", Required(Int(U(32))))], [Some(IntData(64))], [Static(IntConst(-1))])
            == Rejected(IntegerError("tile_size", Signed(-1), U(32)))
  {
    var field, value := Field("tile_size", Required(Int(U(32)))), Static(IntConst(-1));
    assert [field][1..] == [] && [value][1..] == [] && [IntValue(Signed(-1))] + [] == [IntValue(Signed(-1))];
    assert Neutral(rounding, [field], [value]) == Some([IntValue(Signed(-1))]);
  }
}
