/** A Value is a tagged scalar: a nominal category name, a numeric double, or
    "missing". It has no setter, so it is a datatype: once built it never
    changes, and its two getters are the datatype's fields. */
module Values {
  import opened Doubles
  import opened Errors

  const NOMINAL_VALUE: int := 0
  const NUMERIC_VALUE: int := 1
  const MISSING_VALUE: int := 2

  /** The Java Object a Value holds: a String, a Double, or null. */
  datatype Payload = Text(s: string) | Number(d: Double) | Null

  /** `payload` is what getValue returns, `tag` what getValueType returns. */
  datatype Value = Value(payload: Payload, tag: int)

  /** The constructor's switch. An unknown type argument matches no case, so
      both fields keep their Java defaults: a null payload and tag 0. */
  function NewValue(p: Payload, t: int): (v: Value)
    ensures t == MISSING_VALUE ==> v.tag == MISSING_VALUE && v.payload == Number(NaN)
    ensures (t == NOMINAL_VALUE || t == NUMERIC_VALUE) ==> v.payload == p && v.tag == t
    ensures !(0 <= t <= 2) ==> v.payload == Null && v.tag == NOMINAL_VALUE
  {
    if t == NOMINAL_VALUE then Value(p, NOMINAL_VALUE)
    else if t == NUMERIC_VALUE then Value(p, NUMERIC_VALUE)
    else if t == MISSING_VALUE then Value(Number(NaN), MISSING_VALUE)
    else Value(Null, 0)
  }

  /** Tag and payload agree the way the constructor guarantees. */
  predicate Consistent(v: Value)
  {
    0 <= v.tag <= 2 && (v.tag == MISSING_VALUE ==> v.payload == Number(NaN))
  }

  /** Every constructed Value is consistent, whatever was passed in, and two
      constructions with MISSING agree no matter the payloads. */
  lemma NewValueConsistent(p: Payload, q: Payload, t: int)
    ensures Consistent(NewValue(p, t))
    ensures t == MISSING_VALUE ==> NewValue(p, t) == NewValue(q, t)
    ensures NewValue(p, t).tag == t <==> 0 <= t <= 2
  {
  }

  /** Java's `(String) value.getValue()` used as a HashMap key: a Double
      fails the cast, and a null key is absent from every map the toolkit
      builds, so the unboxing of the missing index throws. */
  function CategoryName(p: Payload): (r: Result<string>)
    ensures r.Ok? <==> p.Text?
    ensures r.Ok? ==> r.value == p.s
    ensures p.Number? ==> r == Err(ClassCast)
    ensures p.Null? ==> r == Err(NullPointer)
  {
    match p
    case Text(s) => Ok(s)
    case Number(_) => Err(ClassCast)
    case Null => Err(NullPointer)
  }

  /** Java's `(Double) value.getValue()` followed by unboxing. */
  function NumberOf(p: Payload): (r: Result<Double>)
    ensures r.Ok? <==> p.Number?
    ensures r.Ok? ==> r.value == p.d
    ensures p.Text? ==> r == Err(ClassCast)
    ensures p.Null? ==> r == Err(NullPointer)
  {
    match p
    case Number(d) => Ok(d)
    case Text(_) => Err(ClassCast)
    case Null => Err(NullPointer)
  }
}
