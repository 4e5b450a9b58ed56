/**
 * `check_response`: the response validator.
 *
 * It walks the ordered table of required keys (`homeworks`, a list, then
 * `current_date`, an int). For each key: an absent key raises
 * CheckResponseError, a None value raises ValuesMissingError, a falsy value is
 * only logged, a value of the wrong kind raises TypeError; for the list entry
 * the first element becomes the result, so an empty list raises IndexError
 * before `current_date` is looked at.
 */
module Validator {
  import opened Errors
  import opened Json

  datatype Kind = ListKind | IntKind

  /** The required keys with their expected kinds, in the order they are checked. */
  const Required: seq<(string, Kind)> := [("homeworks", ListKind), ("current_date", IntKind)]

  /** `isinstance(v, list)` and `isinstance(v, int)`. Python's bool is a subclass
      of int, so a JSON boolean passes as an int. */
  predicate IsInstance(v: JValue, kind: Kind)
  {
    match kind
    case ListKind => v.JList?
    case IntKind => v.JInt? || v.JBool?
  }

  /** How an f-string renders the class object `list` or `int`. */
  function KindName(kind: Kind): string
  {
    match kind
    case ListKind => "<class 'list'>"
    case IntKind => "<class 'int'>"
  }

  /** The checks run on one required key, in the order the source runs them;
      on success, the key's value. */
  function CheckEntry(response: JValue, key: string, kind: Kind): (r: Result<JValue>)
    ensures r.Ok? <==> response.JObject? && key in response.fields
                       && IsInstance(response.fields[key], kind)
    ensures r.Ok? ==> r.value == response.fields[key]
    ensures r.Err? ==>
      (r.error.CheckResponseError? <==> response.JObject? && key !in response.fields)
    ensures r.Err? ==>
      (r.error.ValuesMissingError? <==> response.JObject? && key in response.fields
                                        && response.fields[key] == JNull)
    ensures !response.JObject? ==> r.Err? && r.error.TypeError?
  {
    match Subscript(response, key)
    case Err(KeyError(k)) => Err(CheckResponseError(Str(KeyError(k)) + " is absent."))
    case Err(e) => Err(e)
    case Ok(v) =>
      if v.JNull? then Err(ValuesMissingError("\"None\" value in " + key + " dictionary"))
      // a falsy value is only logged here
      else if !IsInstance(v, kind) then
        Err(TypeError(key + " dictionary value is not " + KindName(kind) + " type"))
      else Ok(v)
  }

  /** The response shape under which `check_response` returns normally. */
  ghost predicate WellFormed(response: JValue)
  {
    && response.JObject?
    && "homeworks" in response.fields
    && response.fields["homeworks"].JList?
    && |response.fields["homeworks"].items| > 0
    && "current_date" in response.fields
    && IsInstance(response.fields["current_date"], IntKind)
  }

  /** What `check_response(response)` returns or raises. */
  function Validate(response: JValue): (r: Result<JValue>)
    ensures r.Ok? <==> WellFormed(response)
    ensures r.Ok? ==> r.value == response.fields["homeworks"].items[0]
  {
    match CheckEntry(response, "homeworks", ListKind)
    case Err(e) => Err(e)
    case Ok(homeworks) =>
      if |homeworks.items| == 0 then Err(IndexError("list index out of range"))
      else
        match CheckEntry(response, "current_date", IntKind)
        case Err(e) => Err(e)
        case Ok(_) => Ok(homeworks.items[0])
  }

  /** The source's loop over the required-key table, raising by early return. */
  method CheckResponse(response: JValue) returns (r: Result<JValue>)
    ensures r == Validate(response)
  {
    var homework := JBool(false);
    var i := 0;
    while i < |Required|
      invariant 0 <= i <= |Required|
      invariant i > 0 ==> CheckEntry(response, "homeworks", ListKind).Ok?
      invariant i > 0 ==> var hw := response.fields["homeworks"].items;
                          |hw| > 0 && homework == hw[0]
      invariant i > 1 ==> CheckEntry(response, "current_date", IntKind).Ok?
    {
      var key, kind := Required[i].0, Required[i].1;
      var value;
      match Subscript(response, key) {
        case Err(KeyError(k)) =>
          return Err(CheckResponseError(Str(KeyError(k)) + " is absent."));
        case Err(e) =>
          return Err(e);
        case Ok(v) =>
          value := v;
      }
      if value.JNull? {
        return Err(ValuesMissingError("\"None\" value in " + key + " dictionary"));
      }
      // a falsy value is only logged here
      if !IsInstance(value, kind) {
        return Err(TypeError(key + " dictionary value is not " + KindName(kind) + " type"));
      }
      if kind == ListKind {
        if |value.items| == 0 {
          return Err(IndexError("list index out of range"));
        }
        homework := value.items[0];
      }
      i := i + 1;
    }
    return Ok(homework);
  }

  /** `homeworks` is examined before `current_date`: when the `homeworks` entry
      alone already fails, the `current_date` entry cannot change the outcome. */
  lemma HomeworksCheckedFirst(m1: map<string, JValue>, m2: map<string, JValue>)
    requires "homeworks" in m1 <==> "homeworks" in m2
    requires "homeworks" in m1 ==> m1["homeworks"] == m2["homeworks"]
    requires !("homeworks" in m1 && m1["homeworks"].JList? && |m1["homeworks"].items| > 0)
    ensures Validate(JObject(m1)).Err?
    ensures Validate(JObject(m1)) == Validate(JObject(m2))
  {
  }

  /** A missing `homeworks` key raises CheckResponseError naming it, whatever
      else the response holds. */
  lemma MissingHomeworksNamed(m: map<string, JValue>)
    requires "homeworks" !in m
    ensures Validate(JObject(m)) == Err(CheckResponseError("'homeworks' is absent."))
  {
  }

  /** A missing `current_date` key raises CheckResponseError naming it, once
      `homeworks` has passed. */
  lemma MissingDateNamed(m: map<string, JValue>)
    requires "homeworks" in m && m["homeworks"].JList? && |m["homeworks"].items| > 0
    requires "current_date" !in m
    ensures Validate(JObject(m)) == Err(CheckResponseError("'current_date' is absent."))
  {
  }

  /** A None `homeworks` value raises ValuesMissingError, ahead of the kind check. */
  lemma NoneHomeworksBeforeKind(m: map<string, JValue>)
    requires "homeworks" in m && m["homeworks"] == JNull
    ensures Validate(JObject(m))
         == Err(ValuesMissingError("\"None\" value in " + "homeworks" + " dictionary"))
  {
  }

  /** A None `current_date` value raises ValuesMissingError, ahead of the kind
      check, once `homeworks` has passed. */
  lemma NoneDateBeforeKind(m: map<string, JValue>)
    requires "homeworks" in m && m["homeworks"].JList? && |m["homeworks"].items| > 0
    requires "current_date" in m && m["current_date"] == JNull
    ensures Validate(JObject(m))
         == Err(ValuesMissingError("\"None\" value in " + "current_date" + " dictionary"))
  {
  }

  /** A non-null `homeworks` value that is not a list raises TypeError. */
  lemma HomeworksWrongKind(m: map<string, JValue>)
    requires "homeworks" in m && m["homeworks"] != JNull && !m["homeworks"].JList?
    ensures Validate(JObject(m))
         == Err(TypeError("homeworks" + " dictionary value is not " + "<class 'list'>" + " type"))
  {
  }

  /** A non-null `current_date` value that is neither an int nor a bool raises
      TypeError, once `homeworks` has passed. */
  lemma DateWrongKind(m: map<string, JValue>)
    requires "homeworks" in m && m["homeworks"].JList? && |m["homeworks"].items| > 0
    requires "current_date" in m && m["current_date"] != JNull
    requires !(m["current_date"].JInt? || m["current_date"].JBool?)
    ensures Validate(JObject(m))
         == Err(TypeError("current_date" + " dictionary value is not " + "<class 'int'>" + " type"))
  {
  }

  /** An empty `homeworks` list raises IndexError, whatever `current_date` is or
      whether it is present at all: the falsy check does not stop it. */
  lemma EmptyHomeworksIsIndexError(m: map<string, JValue>)
    requires "homeworks" in m && m["homeworks"] == JList([])
    ensures Validate(JObject(m)) == Err(IndexError("list index out of range"))
  {
  }

  /** A falsy but well-typed `current_date` (0 or False) is accepted like any
      other int: it yields exactly the outcome a non-zero date would. */
  lemma FalsyDateOnlyLogged(m: map<string, JValue>, date: JValue)
    requires Falsy(date) && IsInstance(date, IntKind)
    ensures Validate(JObject(m["current_date" := date]))
         == Validate(JObject(m["current_date" := JInt(1)]))
  {
  }

  /** A response that is not a JSON object fails at `response[key]` with an
      uncaught TypeError. */
  lemma NonObjectIsTypeError(response: JValue)
    requires !response.JObject?
    ensures Validate(response).Err? && Validate(response).error.TypeError?
  {
  }
}
