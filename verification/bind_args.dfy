/**
 Binding a caller's arguments: coercion by declared type, enums, defaults, fixed values, and refusal of
 every key that is not declared.
 */
module BindArgs {
  import opened Wrappers
  import opened Orders
  import opened MachineInts
  import opened UrlTemplates
  import opened JsonValues
  import opened Definitions
  import opened DigitStrings

  // ----- Coercion -----

  /** 2^63, which the largest 64-bit signed integer becomes as a double. */
  const TWO_TO_63 := 9223372036854775808.0

  /** Casting a double saturates. */
  function SaturatingCast(value: real): i64 {
    var floor := value.Floor;
    if floor > I64_MAX then I64_MAX else if floor < I64_MIN then I64_MIN else floor
  }

  function CoerceInteger(v: Json): Option<Json> {
    match v
    case Num(Double(value)) =>
      if value == value.Floor as real && I64_MIN as real <= value <= TWO_TO_63
      then Some(Num(IntToNumber(SaturatingCast(value)))) else None
    case Num(_) => Some(v)
    case Str(s) =>
      var parsed := ParseDigitString(s);
      if parsed.Some? then Some(Num(IntToNumber(parsed.value))) else None
    case _ => None
  }

  function Coerce(ty: ParamType, v: Json): Option<Json> {
    match ty
    case StringType => if v.Str? then Some(v) else None
    case IntegerType => CoerceInteger(v)
    case NumberType => if v.Num? then Some(v) else None
    case BooleanType => if v.Bool? then Some(v) else None
    case StringArrayType => if v.Arr? && forall i | 0 <= i < |v.items| :: v.items[i].Str? then Some(v) else None
  }

  /** What coercion yields, coercion leaves alone. */
  lemma CoerceSettles(ty: ParamType, v: Json)
    requires Coerce(ty, v).Some?
    ensures Coerce(ty, Coerce(ty, v).value) == Coerce(ty, v)
  {
  }

  /** An integer param is bound to an integer, of the same value unless it is a double no smaller than 2^63. */
  lemma CoercedIntegers(v: Json)
    requires CoerceInteger(v).Some?
    ensures var r := CoerceInteger(v).value; r.Num? && !r.n.Double?
    ensures v.Num? ==> (ValueOf(CoerceInteger(v).value.n) == ValueOf(v.n) <==> (v.n.Double? ==> v.n.value < TWO_TO_63))
  {
    if v.Num? && v.n.Double? {
      var value := v.n.value;
      assert value.Floor as real == value;
      assert value < TWO_TO_63 ==> value.Floor <= I64_MAX;
      assert value.Floor >= I64_MIN;
    }
  }

  // ----- What each type accepts -----

  /**
   Every type accepts its own kind of value as it is. An integer may also be a whole double within 64 bits or
   a string that spells one; nothing else is converted.
   */
  lemma CoercesExactlyWhen(v: Json)
    ensures Coerce(StringType, v) == if v.Str? then Some(v) else None
    ensures Coerce(NumberType, v) == if v.Num? then Some(v) else None
    ensures Coerce(BooleanType, v) == if v.Bool? then Some(v) else None
    ensures Coerce(StringArrayType, v) == if v.Arr? && forall i | i in v.items :: i.Str? then Some(v) else None
    ensures v.Num? && !v.n.Double? ==> Coerce(IntegerType, v) == Some(v)
    ensures v.Num? && v.n.Double? ==>
      (Coerce(IntegerType, v).Some? <==> WholeWithin64Bits(v.n.value))
    ensures v.Str? ==> forall i: i64 :: Coerce(IntegerType, v) == Some(Num(IntToNumber(i))) <==> SpellsValue(v.s, i)
    ensures v.Str? ==> (Coerce(IntegerType, v).None? <==> forall i: i64 :: !SpellsValue(v.s, i))
    ensures !v.Num? && !v.Str? ==> Coerce(IntegerType, v).None?
  {
    if v.Str? {
      forall i: i64 ensures ParseDigitString(v.s) == Some(i) <==> SpellsValue(v.s, i) {
        ParsesExactlyWhenSpelled(v.s, i);
      }
      forall i: i64, j: i64 ensures IntToNumber(i) == IntToNumber(j) <==> i == j {
      }
    }
    if v.Num? && v.n.Double? {
      WholeIsFloor(v.n.value);
    }
  }

  ghost predicate WholeWithin64Bits(value: real) {
    exists i: int :: IsWhole(value, i) && -0x8000_0000_0000_0000 <= i <= 0x8000_0000_0000_0000
  }

  ghost predicate IsWhole(value: real, i: int) {
    value == i as real
  }

  lemma WholeIsFloor(value: real)
    ensures WholeWithin64Bits(value) <==>
      value == value.Floor as real && I64_MIN as real <= value <= TWO_TO_63
  {
    if value == value.Floor as real && I64_MIN as real <= value <= TWO_TO_63 {
      assert IsWhole(value, value.Floor);
    }
  }

  // ----- Binding -----

  /** The caller's arguments: an object, or some other JSON value. */
  datatype Args = Object(entries: map<Text, Json>) | NotAnObjectValue

  datatype ValidationError =
    | NotAnObject
    | UnknownParam(param: Text)
    | MissingRequired(param: Text)
    | WrongType(param: Text)
    | NotInEnum(param: Text)

  /** What one param is bound to: a value, nothing, or an error. */
  function BindOne(p: Param, entries: map<Text, Json>): Result<Option<Json>, ValidationError> {
    if p.fixed.Some? then Ok(p.fixed)
    else if p.name in entries then
      var coerced := Coerce(p.ty, entries[p.name]);
      if coerced.None? then Err(WrongType(p.name))
      else if p.enumValues.Some? && coerced.value !in p.enumValues.value then Err(NotInEnum(p.name))
      else Ok(coerced)
    else if p.default.Some? then Ok(p.default)
    else if p.required then Err(MissingRequired(p.name))
    else Ok(None)
  }

  /** The outcome after the first `k` params: the first error met, or the values so far. */
  function BindTo(params: seq<Param>, entries: map<Text, Json>, k: nat): Result<map<Text, Json>, ValidationError>
    requires k <= |params|
  {
    if k == 0 then Ok(map[]) else
    var before := BindTo(params, entries, k - 1);
    if before.Err? then before else
    var one := BindOne(params[k - 1], entries);
    if one.Err? then Err(one.error)
    else Ok(if one.value.Some? then before.value[params[k - 1].name := one.value.value] else before.value)
  }

  predicate Declared(params: seq<Param>, name: Text) {
    exists i | 0 <= i < |params| :: params[i].name == name
  }

  ghost predicate AllDeclared(params: seq<Param>, entries: map<Text, Json>) {
    forall name | name in entries :: Declared(params, name)
  }

  lemma {:induction false} BindErrorsStick(params: seq<Param>, entries: map<Text, Json>, j: nat, k: nat)
    requires j <= k <= |params| && BindTo(params, entries, j).Err?
    ensures BindTo(params, entries, k) == BindTo(params, entries, j)
  {
    if j < k {
      BindErrorsStick(params, entries, j, k - 1);
    }
  }

  // ----- The first undeclared key -----

  /** The bytes of a key as characters, which compare the same way. */
  function Chars(t: Text): (s: string)
    ensures |s| == |t| && forall i | 0 <= i < |t| :: s[i] as int == t[i]
  {
    seq(|t|, i requires 0 <= i < |t| => t[i] as char)
  }

  lemma CharsAreInjective(a: Text, b: Text)
    requires Chars(a) == Chars(b)
    ensures a == b
  {
    forall i | 0 <= i < |a| ensures a[i] == b[i] {
      assert Chars(a)[i] == Chars(b)[i];
    }
  }

  lemma HasFirstKey(names: set<Text>)
    requires names != {}
    ensures exists name :: name in names && forall other | other in names ::
            other == name || Less(Chars(name), Chars(other))
  {
    var shown := set name | name in names :: Chars(name);
    var any :| any in names;
    assert Chars(any) in shown;
    HasLeast(shown);
    var least :| IsLeast(shown, least);
    var name :| name in names && Chars(name) == least;
    forall other | other in names ensures other == name || Less(Chars(name), Chars(other)) {
      assert Chars(other) in shown;
      if Chars(other) == least {
        CharsAreInjective(other, name);
      }
    }
  }

  method FirstKey(names: set<Text>) returns (name: Text)
    requires names != {}
    ensures name in names && forall other | other in names :: other == name || Less(Chars(name), Chars(other))
  {
    HasFirstKey(names);
    name :| name in names && forall other | other in names :: other == name || Less(Chars(name), Chars(other));
  }

  // ----- Binding a call's arguments -----

  /** The error names the first key, in order, that no param declares. */
  ghost predicate ExplainsUnknown(params: seq<Param>, entries: map<Text, Json>, e: ValidationError) {
    && e.UnknownParam? && e.param in entries && !Declared(params, e.param)
    && forall name | name in entries && Less(Chars(name), Chars(e.param)) :: Declared(params, name)
  }

  method Bind(params: seq<Param>, args: Args) returns (r: Result<map<Text, Json>, ValidationError>)
    ensures args.NotAnObjectValue? ==> r == Err(NotAnObject)
    ensures args.Object? && BindTo(params, args.entries, |params|).Err? ==> r == BindTo(params, args.entries, |params|)
    ensures args.Object? && BindTo(params, args.entries, |params|).Ok? ==>
      if AllDeclared(params, args.entries) then r == BindTo(params, args.entries, |params|)
      else r.Err? && ExplainsUnknown(params, args.entries, r.error)
  {
    if args.NotAnObjectValue? {
      return Err(NotAnObject);
    }
    var bound: map<Text, Json> := map[];
    var known: set<Text> := {};
    for k := 0 to |params|
      invariant BindTo(params, args.entries, k) == Ok(bound)
      invariant forall name :: name in known <==> exists i :: 0 <= i < k && params[i].name == name
    {
      var p := params[k];
      known := known + {p.name};
      var one := BindOne(p, args.entries);
      if one.Err? {
        BindErrorsStick(params, args.entries, k + 1, |params|);
        return Err(one.error);
      }
      if one.value.Some? {
        bound := bound[p.name := one.value.value];
      }
    }
    var unknown := set name | name in args.entries && name !in known;
    if unknown != {} {
      var name := FirstKey(unknown);
      FirstIsUnknown(params, args.entries, unknown, name);
      return Err(UnknownParam(name));
    }
    forall name | name in args.entries ensures Declared(params, name) {
      assert name !in unknown;
    }
    r := Ok(bound);
  }

  lemma FirstIsUnknown(params: seq<Param>, entries: map<Text, Json>, unknown: set<Text>, name: Text)
    requires forall n :: n in unknown <==> n in entries && !Declared(params, n)
    requires name in unknown && forall other | other in unknown :: other == name || Less(Chars(name), Chars(other))
    ensures ExplainsUnknown(params, entries, UnknownParam(name))
  {
    forall other | other in entries && Less(Chars(other), Chars(name)) ensures Declared(params, other) {
      LessIsStrict(Chars(name));
      if other in unknown && other != name {
        LessIsTransitive(Chars(name), Chars(other), Chars(name));
      }
    }
  }

  /** Params and arguments determine which undeclared key is named. */
  lemma UnknownIsUnique(params: seq<Param>, entries: map<Text, Json>, a: ValidationError, b: ValidationError)
    requires ExplainsUnknown(params, entries, a) && ExplainsUnknown(params, entries, b)
    ensures a == b
  {
    LessIsTotal(Chars(a.param), Chars(b.param));
    if Chars(a.param) == Chars(b.param) {
      CharsAreInjective(a.param, b.param);
    }
  }

  // ----- What binding guarantees -----

  /** The caller gave this param everything it asks for. */
  ghost predicate Satisfied(p: Param, entries: map<Text, Json>) {
    p.fixed.Some? ||
    if p.name in entries then
      var coerced := Coerce(p.ty, entries[p.name]);
      coerced.Some? && (p.enumValues.Some? ==> coerced.value in p.enumValues.value)
    else p.default.Some? || !p.required
  }

  lemma {:induction false} BindsExactlyWhenSatisfied(params: seq<Param>, entries: map<Text, Json>, k: nat)
    requires k <= |params|
    ensures BindTo(params, entries, k).Ok? <==> forall i | 0 <= i < k :: Satisfied(params[i], entries)
  {
    if k > 0 {
      BindsExactlyWhenSatisfied(params, entries, k - 1);
    }
  }

  /** The first param that is not satisfied decides the error, and what it lacks says which. */
  lemma {:induction false} FirstUnsatisfiedDecides(params: seq<Param>, entries: map<Text, Json>, k: nat)
    returns (i: nat)
    requires k <= |params| && BindTo(params, entries, k).Err?
    ensures i < k && !Satisfied(params[i], entries) && forall j | 0 <= j < i :: Satisfied(params[j], entries)
    ensures var name := params[i].name;
      BindTo(params, entries, k) == Err(if name !in entries then MissingRequired(name)
                                        else if Coerce(params[i].ty, entries[name]).None? then WrongType(name)
                                        else NotInEnum(name))
  {
    if BindTo(params, entries, k - 1).Err? {
      i := FirstUnsatisfiedDecides(params, entries, k - 1);
    } else {
      BindsExactlyWhenSatisfied(params, entries, k - 1);
      i := k - 1;
    }
  }

  /** The result has exactly the values of the params that got one, each under its own name. */
  lemma {:induction false} BoundValues(params: seq<Param>, entries: map<Text, Json>, k: nat)
    requires DistinctParams(params) && k <= |params| && BindTo(params, entries, k).Ok?
    ensures var bound := BindTo(params, entries, k).value;
      && (forall name | name in bound :: exists i :: 0 <= i < k && params[i].name == name)
      && forall i | 0 <= i < k :: BindOne(params[i], entries) ==
           Ok(if params[i].name in bound then Some(bound[params[i].name]) else None)
  {
    if k > 0 {
      BoundValues(params, entries, k - 1);
    }
  }

  /** What a param is bound to: its fixed value, or else what the caller sent, coerced, or else its default. */
  ghost predicate BoundAs(p: Param, entries: map<Text, Json>, bound: map<Text, Json>) {
    if p.fixed.Some? then p.name in bound && bound[p.name] == p.fixed.value
    else if p.name in entries then p.name in bound && Coerce(p.ty, entries[p.name]) == Some(bound[p.name])
    else if p.default.Some? then p.name in bound && bound[p.name] == p.default.value
    else p.name !in bound
  }

  lemma BoundAsItsOwn(p: Param, entries: map<Text, Json>, bound: map<Text, Json>)
    requires BindOne(p, entries) == Ok(if p.name in bound then Some(bound[p.name]) else None)
    ensures BoundAs(p, entries, bound)
  {
  }

  /** The result holds for every param its fixed, sent or default value, in that order of precedence, or nothing. */
  lemma EveryParamIsBoundAs(params: seq<Param>, entries: map<Text, Json>)
    requires DistinctParams(params) && BindTo(params, entries, |params|).Ok?
    ensures forall i | 0 <= i < |params| :: BoundAs(params[i], entries, BindTo(params, entries, |params|).value)
  {
    BoundValues(params, entries, |params|);
    forall i | 0 <= i < |params| ensures BoundAs(params[i], entries, BindTo(params, entries, |params|).value) {
      BoundAsItsOwn(params[i], entries, BindTo(params, entries, |params|).value);
    }
  }

  /** The entries of unfixed params. */
  ghost predicate AgreeOnUnfixed(params: seq<Param>, a: map<Text, Json>, b: map<Text, Json>) {
    forall i | 0 <= i < |params| && params[i].fixed.None? ::
      (params[i].name in a <==> params[i].name in b) &&
      (params[i].name in a ==> a[params[i].name] == b[params[i].name])
  }

  /** The result never depends on what the caller sent for a fixed param. */
  lemma {:induction false} FixedParamsAreNotRead(params: seq<Param>, a: map<Text, Json>, b: map<Text, Json>, k: nat)
    requires k <= |params| && AgreeOnUnfixed(params, a, b)
    ensures BindTo(params, a, k) == BindTo(params, b, k)
  {
    if k > 0 {
      FixedParamsAreNotRead(params, a, b, k - 1);
      assert BindOne(params[k - 1], a) == BindOne(params[k - 1], b);
    }
  }

  /** A default that was applied would itself have been accepted unchanged. */
  ghost predicate DefaultStable(p: Param, entries: map<Text, Json>) {
    p.fixed.None? && p.name !in entries && p.default.Some? ==>
      Coerce(p.ty, p.default.value) == p.default && (p.enumValues.Some? ==> p.default.value in p.enumValues.value)
  }

  lemma {:induction false} RebindTo(params: seq<Param>, entries: map<Text, Json>, bound: map<Text, Json>, k: nat)
    requires k <= |params| && BindTo(params, entries, k).Ok?
    requires forall i | 0 <= i < k :: BindOne(params[i], bound) == BindOne(params[i], entries)
    ensures BindTo(params, bound, k) == BindTo(params, entries, k)
  {
    if k > 0 {
      RebindTo(params, entries, bound, k - 1);
    }
  }

  /** Binding a result again returns it unchanged exactly when binding accepts every default it applied as it is. */
  lemma RebindReturnsTheSameIffDefaultsAreStable(params: seq<Param>, entries: map<Text, Json>)
    requires DistinctParams(params) && BindTo(params, entries, |params|).Ok?
    ensures var bound := BindTo(params, entries, |params|).value;
      && AllDeclared(params, bound)
      && (BindTo(params, bound, |params|) == Ok(bound) <==>
            forall i | 0 <= i < |params| :: DefaultStable(params[i], entries))
  {
    var bound := BindTo(params, entries, |params|).value;
    BoundValues(params, entries, |params|);
    forall i | 0 <= i < |params|
      ensures BindOne(params[i], bound) == BindOne(params[i], entries) <==> DefaultStable(params[i], entries)
    {
    }
    if forall i | 0 <= i < |params| :: DefaultStable(params[i], entries) {
      RebindTo(params, entries, bound, |params|);
    } else if BindTo(params, bound, |params|) == Ok(bound) {
      BoundValues(params, bound, |params|);
    }
  }
}
