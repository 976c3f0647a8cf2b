/** The JavaScript values the store keeps in its user record, and the
    language operations the store applies to them: truthiness, object
    spread, `+= 1`, numeric coercion and `Math.round` of a percentage. */
module Js {
  import opened Wrappers
  import opened Text

  /** A property value. `Undefined` is a key that is present with the value
      `undefined`; an absent key is simply not in the record. Numbers are
      integers. */
  datatype Value =
    | Undefined
    | Null
    | Num(n: int)
    | NaN
    | Str(s: string)
    | List(items: seq<string>)

  /** A plain object: its own enumerable properties by name. */
  type Record = map<string, Value>

  /** JavaScript truthiness. */
  predicate Truthy(v: Value)
  {
    match v
    case Undefined => false
    case Null => false
    case NaN => false
    case Num(n) => n != 0
    case Str(s) => s != ""
    case List(_) => true
  }

  /** Reading a property: a missing key reads as `undefined`. */
  function Get(r: Record, key: string): Value
  {
    if key in r then r[key] else Undefined
  }

  /** An optional string argument: absent reads as `undefined`. */
  function FromOptional(o: Option<string>): (v: Value)
    ensures o.None? ==> v == Undefined
    ensures o.Some? ==> v == Str(o.value)
    ensures Truthy(v) <==> o.Some? && o.value != ""
  {
    match o
    case None => Undefined
    case Some(s) => Str(s)
  }

  /** `{ ...base, ...patch }` where `base` may be `null`: every key of
      `patch` takes its value from `patch` (even `undefined`), every other
      key of `base` keeps its value, and spreading `null` contributes
      nothing. */
  function Merge(base: Option<Record>, patch: Record): (r: Record)
    ensures base.None? ==> r == patch
    ensures base.Some? ==> r.Keys == base.value.Keys + patch.Keys
    ensures forall k :: k in patch ==> k in r && r[k] == patch[k]
    ensures base.Some? ==> forall k :: k in base.value && k !in patch ==> r[k] == base.value[k]
  {
    match base
    case None => patch
    case Some(b) => b + patch
  }

  /** The result of `v + 1`, as `v += 1` stores it: a string, or an array
      after its conversion to a string, is concatenated with "1"; any other
      value is converted to a number and incremented, NaN staying NaN. */
  function PlusOne(v: Value): (r: Value)
    ensures v.Str? ==> r == Str(v.s + "1")
    ensures v.List? ==> r == Str(Join(v.items, ",") + "1")
    ensures !v.Str? && !v.List? ==> r == (if ToNumber(v).Some? then Num(ToNumber(v).value + 1) else NaN)
  {
    match v
    case Num(n) => Num(n + 1)
    case Null => Num(1)
    case Undefined => NaN
    case NaN => NaN
    case Str(s) => Str(s + "1")
    case List(xs) => Str(Join(xs, ",") + "1")
  }

  /** `Number(s)` for the strings the model covers: the empty string is 0,
      a string of decimal digits is its value, anything else is NaN. */
  function StringToNumber(s: string): (r: Option<int>)
    ensures r.Some? ==> r.value >= 0
  {
    if AllDigits(s) then Some(ParseDigits(s)) else None
  }

  /** `Number(v)`, with `None` standing for NaN. An array is converted
      through its string form, the elements joined by commas. */
  function ToNumber(v: Value): (r: Option<int>)
    ensures v.Null? ==> r == Some(0)
    ensures v.Undefined? || v.NaN? ==> r.None?
    ensures v.Num? ==> r == Some(v.n)
    ensures v.Str? ==> r == StringToNumber(v.s)
    ensures v.List? ==> r == StringToNumber(Join(v.items, ","))
  {
    match v
    case Undefined => None
    case Null => Some(0)
    case NaN => None
    case Num(n) => Some(n)
    case Str(s) => StringToNumber(s)
    case List(xs) =>
      if xs == [] then Some(0)
      else if |xs| == 1 then StringToNumber(xs[0])
      else
        JoinHasSeparator(xs, ",");
        None
  }
  /** An array of two or more elements converts to a string holding a comma,
      which is not a number. */
  lemma JoinHasSeparator(xs: seq<string>, sep: string)
    requires |xs| >= 2 && sep == ","
    ensures !AllDigits(Join(xs, sep))
  {
    var r := Join(xs, sep);
    assert r[|xs[0]|] == ',';
  }

  /** Truthiness agrees with `Boolean(v)`: numbers (after conversion) are
      truthy unless 0 or NaN, strings unless empty, arrays always. */
  lemma TruthyIsToBoolean(v: Value)
    ensures !v.Str? && !v.List? ==> (Truthy(v) <==> ToNumber(v).Some? && ToNumber(v).value != 0)
    ensures v.Str? ==> (Truthy(v) <==> |v.s| > 0)
    ensures v.List? ==> Truthy(v)
  {
  }


  /** `Math.round((c / t) * 100)` for integers with `t != 0`: the integer
      nearest to 100c/t, halves rounded up. Written as 2t*p - t <= 200c <
      2t*p + t for positive t, i.e. p - 1/2 <= 100c/t < p + 1/2, and with
      the inequalities turned round for negative t. */
  function RoundedPercent(c: int, t: int): (p: int)
    requires t != 0
    ensures t > 0 ==> 2 * t * p - t <= 200 * c < 2 * t * p + t
    ensures t < 0 ==> 2 * t * p - t >= 200 * c > 2 * t * p + t
  {
    var num := if t > 0 then 200 * c + t else -(200 * c + t);
    var den := 2 * (if t > 0 then t else -t);
    var p := num / den;
    assert den * p <= num < den * p + den;
    p
  }

  /** The number `Math.round` yields, including the non-finite ones. */
  datatype Rounded = Finite(n: int) | NotANumber | PlusInfinity | MinusInfinity

  /** `Math.round((completed / total) * 100)` after numeric coercion of both
      operands. */
  function ProgressPercentage(completed: Value, total: Value): (r: Rounded)
    ensures ToNumber(completed).None? || ToNumber(total).None? ==> r == NotANumber
    ensures ToNumber(completed).Some? && ToNumber(total).Some? && ToNumber(total).value == 0 ==>
      r == (if ToNumber(completed).value > 0 then PlusInfinity
            else if ToNumber(completed).value < 0 then MinusInfinity
            else NotANumber)
    ensures ToNumber(completed).Some? && ToNumber(total).Some? && ToNumber(total).value != 0 ==>
      r == Finite(RoundedPercent(ToNumber(completed).value, ToNumber(total).value))
    ensures r.Finite? ==> ToNumber(total).Some? && ToNumber(total).value != 0 && ToNumber(completed).Some?
  {
    match (ToNumber(completed), ToNumber(total))
    case (Some(c), Some(t)) =>
      if t != 0 then Finite(RoundedPercent(c, t))
      else if c > 0 then PlusInfinity
      else if c < 0 then MinusInfinity
      else NotANumber
    case _ => NotANumber
  }

  /** One lesson out of twenty is 5%. */
  lemma OneOfTwentyIsFive()
    ensures ProgressPercentage(Num(1), Num(20)) == Finite(5)
  {
    var p := RoundedPercent(1, 20);
    assert 40 * p - 20 <= 200 < 40 * p + 20;
  }
}
