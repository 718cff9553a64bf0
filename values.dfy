/** Wrappers: the two failure-carrying datatypes the rest of the model uses. */
module Wrappers {

  datatype Option<+T> = None | Some(value: T)

  /** A computation that either yields a value or raises an exception. */
  datatype Result<+T, +E> = Ok(value: T) | Err(error: E)
}

/**
 * Values: the JSON-like values the handler reads from request bodies and
 * stores in the table, the exceptions its Python operations can raise, and
 * the two numeric conversions of lambda.py: `Decimal(str(x))` and the
 * recursive `convert_to_decimal`.
 */
module Values {
  import opened Wrappers

  /**
   * A number, kept abstract: it stands for the number whose canonical text
   * (Python's `str` of it) is `text`. Two texts of the same value, such as
   * "2.5" and "2.50", are different numbers here.
   */
  datatype Number = Number(text: string)

  /**
   * A Python value as `json.loads` produces it (Null, Bool, Num, Str, List,
   * Object), plus Dec, the exact `decimal.Decimal` the store keeps.
   * Python's int and float are both Num: the model treats them alike.
   */
  datatype Value =
    | Null
    | Bool(b: bool)
    | Num(n: Number)
    | Dec(d: Number)
    | Str(s: string)
    | List(elems: seq<Value>)
    | Object(fields: map<string, Value>)

  /** The exceptions a handler step can raise; each ends the request. */
  datatype Fault =
    | TypeError            // `in` or `[]` applied to a value that does not support it
    | InvalidOperation     // `Decimal(...)` given a text that is not a number
    | ParamValidation      // the store client refusing a request parameter's type
    | ValidationException  // the store refusing an update expression
    | MalformedBody        // a body that is not valid JSON, base64, UTF-8 or CSV
    | ValueError           // the CSV writer given a row with a key outside its columns

  /** The number 0, the default of `quantity` and `price`. */
  const Zero := Number("0")

  predicate IsDigit(c: char) { '0' <= c <= '9' }

  predicate AllDigits(s: string) { forall i | 0 <= i < |s| :: IsDigit(s[i]) }

  function Lower(c: char): char {
    if 'A' <= c <= 'Z' then (c as int + 32) as char else c
  }

  function LowerText(s: string): (r: string)
    ensures |r| == |s|
  {
    seq(|s|, i requires 0 <= i < |s| => Lower(s[i]))
  }

  /** Digits with at most one decimal point and at least one digit. */
  predicate IsMantissa(m: string) {
    |m| > 0 &&
    (AllDigits(m) ||
     (|m| > 1 && exists i | 0 <= i < |m| :: m[i] == '.' && AllDigits(m[..i]) && AllDigits(m[i + 1..])))
  }

  /** An exponent after `e` or `E`: an optional sign and at least one digit. */
  predicate IsExponent(x: string) {
    var digits := if |x| > 0 && (x[0] == '+' || x[0] == '-') then x[1..] else x;
    |digits| > 0 && AllDigits(digits)
  }

  predicate IsFiniteLiteral(t: string) {
    IsMantissa(t) ||
    exists i | 0 <= i < |t| :: (t[i] == 'e' || t[i] == 'E') && IsMantissa(t[..i]) && IsExponent(t[i + 1..])
  }

  /** Infinity and the two NaNs, spelt in any case; a NaN may carry diagnostic digits. */
  predicate IsSpecialLiteral(t: string) {
    var l := LowerText(t);
    l == "inf" || l == "infinity" ||
    (|l| >= 3 && l[..3] == "nan" && AllDigits(l[3..])) ||
    (|l| >= 4 && l[..4] == "snan" && AllDigits(l[4..]))
  }

  /** The texts `decimal.Decimal` accepts: an optional sign, then a finite or special literal. */
  predicate IsDecimalLiteral(s: string) {
    var t := if |s| > 0 && (s[0] == '+' || s[0] == '-') then s[1..] else s;
    IsFiniteLiteral(t) || IsSpecialLiteral(t)
  }

  /**
   * `Decimal(str(v))`: a number becomes the exact decimal of its text, a
   * string is parsed, and everything else raises, since `str` of a bool,
   * of None or of a container is never a numeric literal.
   */
  function ToDecimal(v: Value): (r: Result<Value, Fault>)
    ensures r.Ok? ==> r.value.Dec?
    ensures r.Ok? <==> v.Num? || v.Dec? || (v.Str? && IsDecimalLiteral(v.s))
    ensures r.Err? ==> r.error == InvalidOperation
    ensures (v.Num? || v.Dec?) && r.Ok? ==> r.value.d == (if v.Num? then v.n else v.d)
    ensures v.Str? && r.Ok? ==> r.value.d.text == v.s
  {
    match v
    case Num(n) => Ok(Dec(n))
    case Dec(d) => Ok(Dec(d))
    case Str(s) => if IsDecimalLiteral(s) then Ok(Dec(Number(s))) else Err(InvalidOperation)
    case _ => Err(InvalidOperation)
  }

  /**
   * `convert_to_decimal`: rebuild dicts and lists with their members
   * converted, turn every int and float into a Decimal, and keep every other
   * leaf. A bool is an int in Python, so `Decimal(str(True))` raises.
   */
  function ConvertToDecimal(v: Value): (r: Result<Value, Fault>)
    ensures r.Err? ==> r.error == InvalidOperation
    ensures v.Bool? ==> r.Err?
    ensures r.Ok? ==> SameShape(v, r.value)
  {
    match v
    case Object(m) =>
      if forall k | k in m :: ConvertToDecimal(m[k]).Ok?
      then Ok(Object(map k | k in m :: ConvertToDecimal(m[k]).value))
      else Err(InvalidOperation)
    case List(s) =>
      if forall i | 0 <= i < |s| :: ConvertToDecimal(s[i]).Ok?
      then Ok(List(seq(|s|, i requires 0 <= i < |s| => ConvertToDecimal(s[i]).value)))
      else Err(InvalidOperation)
    case Num(n) => Ok(Dec(n))
    case Bool(_) => Err(InvalidOperation)
    case _ => Ok(v)
  }

  /** Whether a bool occurs anywhere in `v`. */
  predicate HasBool(v: Value) {
    match v
    case Bool(_) => true
    case List(s) => exists i | 0 <= i < |s| :: HasBool(s[i])
    case Object(m) => exists k | k in m :: HasBool(m[k])
    case _ => false
  }

  /** Whether an int or float (as opposed to an exact decimal) occurs in `v`. */
  predicate HasWireNumber(v: Value) {
    match v
    case Num(_) => true
    case List(s) => exists i | 0 <= i < |s| :: HasWireNumber(s[i])
    case Object(m) => exists k | k in m :: HasWireNumber(m[k])
    case _ => false
  }

  /**
   * `w` has the shape of `v`: the same containers with the same keys and
   * lengths, each number of `v` the exact decimal of the same text, and
   * every other leaf unchanged.
   */
  predicate SameShape(v: Value, w: Value) {
    match v
    case Num(n) => w == Dec(n)
    case List(s) =>
      w.List? && |w.elems| == |s| && forall i | 0 <= i < |s| :: SameShape(s[i], w.elems[i])
    case Object(m) =>
      w.Object? && w.fields.Keys == m.Keys && forall k | k in m :: SameShape(m[k], w.fields[k])
    case _ => w == v
  }

  /** The conversion fails exactly when the value holds a bool. */
  lemma {:induction false} ConvertFailsIffBool(v: Value)
    ensures ConvertToDecimal(v).Err? <==> HasBool(v)
  {
    match v
    case Object(m) =>
      forall k | k in m ensures ConvertToDecimal(m[k]).Err? <==> HasBool(m[k]) {
        ConvertFailsIffBool(m[k]);
      }
    case List(s) =>
      forall i | 0 <= i < |s| ensures ConvertToDecimal(s[i]).Err? <==> HasBool(s[i]) {
        ConvertFailsIffBool(s[i]);
      }
    case _ =>
  }

  /** A successful conversion keeps the shape and leaves no int or float behind. */
  lemma {:induction false} ConvertPreservesShape(v: Value)
    requires ConvertToDecimal(v).Ok?
    ensures SameShape(v, ConvertToDecimal(v).value)
    ensures !HasWireNumber(ConvertToDecimal(v).value)
  {
    match v
    case Object(m) =>
      var w := ConvertToDecimal(v).value;
      forall k | k in m ensures SameShape(m[k], w.fields[k]) && !HasWireNumber(w.fields[k]) {
        ConvertPreservesShape(m[k]);
      }
    case List(s) =>
      var w := ConvertToDecimal(v).value;
      forall i | 0 <= i < |s| ensures SameShape(s[i], w.elems[i]) && !HasWireNumber(w.elems[i]) {
        ConvertPreservesShape(s[i]);
      }
    case _ =>
  }

  /** Converting an already converted value changes nothing. */
  lemma {:induction false} ConvertIdempotent(v: Value)
    requires ConvertToDecimal(v).Ok?
    ensures ConvertToDecimal(ConvertToDecimal(v).value) == ConvertToDecimal(v)
  {
    var w := ConvertToDecimal(v).value;
    match v
    case Object(m) =>
      var f := w.fields;
      assert f == map k | k in m :: ConvertToDecimal(m[k]).value;
      forall k | k in f ensures ConvertToDecimal(f[k]) == Ok(f[k]) {
        ConvertIdempotent(m[k]);
      }
      var g := ConvertToDecimal(Object(f)).value.fields;
      assert g.Keys == f.Keys;
      assert forall k | k in g :: g[k] == f[k];
      assert g == f;
    case List(s) =>
      forall i | 0 <= i < |s| ensures ConvertToDecimal(w.elems[i]) == Ok(w.elems[i]) {
        ConvertIdempotent(s[i]);
      }
      assert seq(|w.elems|, i requires 0 <= i < |w.elems| => ConvertToDecimal(w.elems[i]).value) == w.elems;
    case _ =>
  }

  /** Whether `needle` occurs in `hay` as a contiguous piece. */
  predicate IsSubstring(needle: string, hay: string) {
    exists i | 0 <= i <= |hay| - |needle| :: OccursAt(needle, hay, i)
  }

  predicate OccursAt(needle: string, hay: string, i: int) {
    0 <= i <= |hay| - |needle| && hay[i..i + |needle|] == needle
  }

  /**
   * Python's `key in data` for a string key: a dict tests its keys, a list
   * its elements, a string its substrings; any other value raises.
   */
  function Contains(data: Value, key: string): (r: Result<bool, Fault>)
    ensures data.Object? ==> r == Ok(key in data.fields)
    ensures data.List? ==> r == Ok(Str(key) in data.elems)
    ensures data.Str? ==> r == Ok(IsSubstring(key, data.s))
    ensures r.Err? <==> !(data.Object? || data.List? || data.Str?)
    ensures r.Err? ==> r.error == TypeError
  {
    match data
    case Object(m) => Ok(key in m)
    case List(s) => Ok(Str(key) in s)
    case Str(t) => Ok(IsSubstring(key, t))
    case _ => Err(TypeError)
  }

  /**
   * Python's `data[key]` after `key in data` held: only a dict can be
   * indexed by a string; a list or a string raises.
   */
  function Subscript(data: Value, key: string): (r: Result<Value, Fault>)
    requires Contains(data, key) == Ok(true)
    ensures r.Ok? <==> data.Object?
    ensures r.Ok? ==> r.value == data.fields[key]
    ensures r.Err? ==> r.error == TypeError
  {
    if data.Object? then Ok(data.fields[key]) else Err(TypeError)
  }
}
