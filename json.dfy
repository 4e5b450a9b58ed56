/**
 * Decoded JSON documents as Python's `json` module returns them, and the few
 * Python operations the core applies to them: subscripting with a string key,
 * truthiness, and `str()` inside an f-string.
 */
module Json {
  import opened Errors

  datatype JValue =
    | JNull                              // None
    | JBool(b: bool)                     // True / False
    | JInt(i: int)                       // int
    | JStr(s: string)                    // str
    | JList(items: seq<JValue>)          // list
    | JObject(fields: map<string, JValue>) // dict

  /** `not v` in Python. */
  predicate Falsy(v: JValue)
  {
    match v
    case JNull => true
    case JBool(b) => !b
    case JInt(i) => i == 0
    case JStr(s) => s == ""
    case JList(items) => items == []
    case JObject(fields) => fields == map[]
  }

  /** `v[key]` with a string key: a lookup in a dict, which raises KeyError when
      the key is absent; every other kind of value raises TypeError
      (CPython 3.11 wording). */
  function Subscript(v: JValue, key: string): (r: Result<JValue>)
    ensures r.Ok? <==> v.JObject? && key in v.fields
    ensures r.Ok? ==> r.value == v.fields[key]
    ensures r.Err? ==> if v.JObject? then r.error == KeyError(key) else r.error.TypeError?
  {
    match v
    case JObject(fields) => if key in fields then Ok(fields[key]) else Err(KeyError(key))
    case JNull => Err(TypeError("'NoneType' object is not subscriptable"))
    case JBool(_) => Err(TypeError("'bool' object is not subscriptable"))
    case JInt(_) => Err(TypeError("'int' object is not subscriptable"))
    case JStr(_) => Err(TypeError("string indices must be integers, not 'str'"))
    case JList(_) => Err(TypeError("list indices must be integers or slices, not str"))
  }

  /** The number a string of decimal digits denotes, read most significant
      digit first. */
  function DecimalValue(s: string): int
  {
    if s == [] then 0
    else 10 * DecimalValue(s[..|s| - 1]) + (s[|s| - 1] as int - '0' as int)
  }

  /** The decimal digits of `n`, most significant first: they denote `n` and
      have no leading zero. */
  function Digits(n: nat): (s: string)
    ensures |s| > 0
    ensures forall k :: 0 <= k < |s| ==> '0' <= s[k] <= '9'
    ensures DecimalValue(s) == n
    ensures |s| > 1 ==> s[0] != '0'
  {
    var last := ['0' + (n % 10) as char];
    if n < 10 then last
    else
      var s := Digits(n / 10) + last;
      assert s[..|s| - 1] == Digits(n / 10);
      s
  }

  /** `str(v)` as an f-string renders it. Scalars are rendered as Python does;
      a list or a dict is rendered as a fixed marker. */
  function PyStr(v: JValue): (s: string)
    ensures v.JStr? ==> s == v.s
    ensures v.JNull? ==> s == "None"
    ensures v.JInt? ==> |s| > 0 && (s[0] == '-' <==> v.i < 0)
    ensures v.JInt? ==> forall k :: (if v.i < 0 then 1 else 0) <= k < |s| ==> '0' <= s[k] <= '9'
    ensures v.JInt? && v.i < 0 ==> |s| > 1
    ensures v.JInt? ==> var digits := if v.i < 0 then s[1..] else s;
                        DecimalValue(digits) == (if v.i < 0 then -v.i else v.i)
                        && (|digits| > 1 ==> digits[0] != '0')
    ensures v.JBool? ==> s == (if v.b then "True" else "False")
  {
    match v
    case JNull => "None"
    case JBool(b) => if b then "True" else "False"
    case JInt(i) => if i < 0 then "-" + Digits(-i) else Digits(i)
    case JStr(s) => s
    case JList(_) => "[...]"
    case JObject(_) => "{...}"
  }

  /** Different integers render differently, so different unknown numeric
      statuses give different error texts. */
  lemma PyStrIntInjective(a: int, b: int)
    requires PyStr(JInt(a)) == PyStr(JInt(b))
    ensures a == b
  {
    var sa, sb := PyStr(JInt(a)), PyStr(JInt(b));
    if a < 0 {
      assert sb[0] == '-';
      assert DecimalValue(sa[1..]) == -a && DecimalValue(sb[1..]) == -b;
    } else {
      assert sb[0] != '-';
      assert DecimalValue(sa) == a && DecimalValue(sb) == b;
    }
  }
}
