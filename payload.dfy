/**
 * The response normaliser of the like widget: `extractValue` turns the body a
 * counter service answered with into a count, or into nothing when the body
 * does not carry one.
 */
module Payload {
  import opened Wrappers
  import opened JsNumber

  /** A value `response.json()` produces, its numbers restricted as in JsNumber. */
  datatype Json =
    | Null
    | Bool(b: bool)
    | Num(n: Number)
    | Str(s: string)
    | Arr(items: seq<Json>)
    | Obj(fields: map<string, Json>)

  /** The fields extractValue looks at, in the order it looks at them. */
  const Candidates: seq<string> := ["value", "count", "data"]

  /**
   * What one field contributes: a finite number as itself, a string through
   * `parseInt` when that gives a finite result; a missing field or anything
   * else contributes nothing.
   */
  function FieldValue(fields: map<string, Json>, key: string): (r: Option<int>)
    ensures r.Some? ==> key in fields && (fields[key].Num? || fields[key].Str?)
  {
    if key !in fields then None
    else match fields[key]
      case Num(Finite(v)) => Some(v)
      case Str(s) => (match ParseInt(s) case Finite(v) => Some(v) case NonFinite => None)
      case _ => None
  }

  /** The contribution of the first of keys that contributes anything. */
  function FirstField(fields: map<string, Json>, keys: seq<string>): (r: Option<int>)
    ensures r.None? <==> forall i :: 0 <= i < |keys| ==> FieldValue(fields, keys[i]).None?
    ensures r.Some? ==>
      exists i :: 0 <= i < |keys| && FieldValue(fields, keys[i]) == r &&
        forall j :: 0 <= j < i ==> FieldValue(fields, keys[j]).None?
  {
    if keys == [] then None
    else if FieldValue(fields, keys[0]).Some? then FieldValue(fields, keys[0])
    else
      var r := FirstField(fields, keys[1..]);
      assert forall i :: 1 <= i < |keys| ==> keys[i] == keys[1..][i - 1];
      r
  }

  /**
   * `extractValue`: a finite number is the count itself; an object gives the
   * first of its `value`, `count` and `data` fields that holds a finite number
   * or an integer string; everything else gives nothing.
   */
  function ExtractValue(data: Json): (r: Option<int>)
    ensures data.Num? ==> r == (if data.n.Finite? then Some(data.n.value) else None)
    ensures !data.Num? && !data.Obj? ==> r == None
    ensures data.Obj? ==>
      (r.None? <==> forall i :: 0 <= i < |Candidates| ==> FieldValue(data.fields, Candidates[i]).None?)
    ensures data.Obj? && r.Some? ==>
      exists i :: 0 <= i < |Candidates| && FieldValue(data.fields, Candidates[i]) == r &&
        forall j :: 0 <= j < i ==> FieldValue(data.fields, Candidates[j]).None?
  {
    match data
    case Num(Finite(v)) => Some(v)
    case Obj(fields) => FirstField(fields, Candidates)
    case _ => None
  }

  /** A field holding a number contributes exactly when the number is finite, and then contributes that number. */
  lemma FieldValueOfNumber(fields: map<string, Json>, key: string)
    requires key in fields && fields[key].Num?
    ensures FieldValue(fields, key).Some? <==> fields[key].n.Finite?
    ensures FieldValue(fields, key).Some? ==> fields[key] == Num(Finite(FieldValue(fields, key).value))
  {
  }

  /**
   * A field holding text contributes exactly when that text is a numeral
   * (whitespace, an optional sign, digits, anything not a digit), and then it
   * contributes the signed value of the digits.
   */
  lemma FieldValueOfText(fields: map<string, Json>, key: string)
    requires key in fields && fields[key].Str?
    ensures FieldValue(fields, key).Some? <==>
      exists ws, sign, digits, rest :: Numeral(fields[key].s, ws, sign, digits, rest)
    ensures forall ws, sign, digits, rest | Numeral(fields[key].s, ws, sign, digits, rest) ::
      FieldValue(fields, key) == Some(SignedValue(sign, digits))
  {
    var text := fields[key].s;
    forall ws, sign, digits, rest | Numeral(text, ws, sign, digits, rest)
      ensures FieldValue(fields, key) == Some(SignedValue(sign, digits))
    {
      ParseIntOfNumeral(text, ws, sign, digits, rest);
    }
    if ParseInt(text).Finite? {
      ParseIntFiniteIsNumeral(text);
    }
  }

  /** A field holding the decimal text of n, trailing non-digits or not, contributes n. */
  lemma FieldValueOfDecimalText(fields: map<string, Json>, key: string, n: int, rest: string)
    requires key in fields && fields[key] == Str(Decimal(n) + rest)
    requires rest == [] || !IsDigit(rest[0])
    ensures FieldValue(fields, key) == Some(n)
  {
    ParseIntOfDecimal(n, rest);
  }

  /** The order matters: `value` beats `count`, which beats `data`. */
  lemma ExtractValuePrefersEarlierField(fields: map<string, Json>, i: nat)
    requires i < |Candidates| && FieldValue(fields, Candidates[i]).Some?
    requires forall j :: 0 <= j < i ==> FieldValue(fields, Candidates[j]).None?
    ensures ExtractValue(Obj(fields)) == FieldValue(fields, Candidates[i])
  {
  }
}
