/**
 * `parse_status`: turns a homework record into the notification text by
 * looking its status up in the fixed verdict table.
 */
module StatusParser {
  import opened Errors
  import opened Json

  /** HOMEWORK_VERDICTS: review status code to its localized verdict. */
  const HomeworkVerdicts: map<string, string> := map[
    "approved" := "Работа проверена: ревьюеру всё понравилось. Ура!",
    "reviewing" := "Работа взята на проверку ревьюером.",
    "rejected" := "Работа проверена: у ревьюера есть замечания."
  ]

  /** The fixed text in front of the quoted homework name. */
  const ChangedPrefix := "Изменился статус проверки работы \""

  /** The notification for a homework `name` and a verdict text. */
  function Message(name: string, verdict: string): string
  {
    ChangedPrefix + name + "\". " + verdict
  }

  /** Python's name of the type of a list or dict value, as TypeError reports it. */
  function TypeName(v: JValue): string
    requires v.JList? || v.JObject?
  {
    if v.JList? then "list" else "dict"
  }

  /** What `parse_status(homework)` returns or raises. The `status` lookup comes
      first and raises uncaught; a missing `homework_name` is only logged; a
      status outside the table raises ValuesMissingError before the name is
      used; only then does the unbound name raise UnboundLocalError. */
  function ParseStatus(homework: JValue): (r: Result<string>)
    ensures r.Ok? <==> && homework.JObject?
                       && "status" in homework.fields
                       && homework.fields["status"].JStr?
                       && homework.fields["status"].s in HomeworkVerdicts
                       && "homework_name" in homework.fields
    ensures r.Ok? ==>
      r.value == Message(PyStr(homework.fields["homework_name"]),
                         HomeworkVerdicts[homework.fields["status"].s])
    ensures r.Err? && (!homework.JObject? || "status" !in homework.fields) ==>
      r.error == Subscript(homework, "status").error
  {
    match Subscript(homework, "status")
    case Err(e) => Err(e)
    case Ok(status) =>
      var name := Subscript(homework, "homework_name");
      if status.JList? || status.JObject? then
        // `status not in HOMEWORK_VERDICTS` hashes the status
        Err(TypeError("unhashable type: '" + TypeName(status) + "'"))
      else if !(status.JStr? && status.s in HomeworkVerdicts) then
        Err(ValuesMissingError("Unknown homework status: " + PyStr(status)))
      else if name.Err? then
        Err(UnboundLocalError("homework_name"))
      else
        Ok(Message(PyStr(name.value), HomeworkVerdicts[status.s]))
  }

  /** The verdict table has exactly the three review states. */
  lemma VerdictTable()
    ensures HomeworkVerdicts.Keys == {"approved", "reviewing", "rejected"}
    ensures |HomeworkVerdicts| == 3
  {
  }

  /** For each of the three states and a string name, the exact notification. */
  lemma KnownStatusMessage(name: string, status: string, extra: map<string, JValue>)
    requires status in {"approved", "reviewing", "rejected"}
    ensures
      var homework := JObject(extra["status" := JStr(status)]["homework_name" := JStr(name)]);
      ParseStatus(homework) == Ok("Изменился статус проверки работы \"" + name + "\". " +
        (if status == "approved" then "Работа проверена: ревьюеру всё понравилось. Ура!"
         else if status == "reviewing" then "Работа взята на проверку ревьюером."
         else "Работа проверена: у ревьюера есть замечания."))
  {
  }

  /** A hashable status outside the table (a string not in it, None, a number
      or a bool) raises ValuesMissingError with the status in its text, whether
      or not `homework_name` is present. */
  lemma UnknownStatusBeforeName(fields: map<string, JValue>, status: JValue)
    requires !status.JList? && !status.JObject?
    requires !(status.JStr? && status.s in HomeworkVerdicts)
    ensures ParseStatus(JObject(fields["status" := status]))
         == Err(ValuesMissingError("Unknown homework status: " + PyStr(status)))
  {
  }

  /** A list or dict status cannot be looked up in the table: the membership
      test raises TypeError, whether or not `homework_name` is present. */
  lemma UnhashableStatus(fields: map<string, JValue>, status: JValue)
    requires status.JList? || status.JObject?
    ensures ParseStatus(JObject(fields["status" := status]))
         == Err(TypeError("unhashable type: '" + (if status.JList? then "list" else "dict") + "'"))
  {
  }

  /** A missing `status` key raises KeyError('status') before anything else. */
  lemma MissingStatusFirst(fields: map<string, JValue>)
    requires "status" !in fields
    ensures ParseStatus(JObject(fields)) == Err(KeyError("status"))
    ensures Str(ParseStatus(JObject(fields)).error) == "'status'"
  {
  }

  /** A known status with no `homework_name` reaches the unbound name. */
  lemma MissingNameUnbound(fields: map<string, JValue>)
    requires "homework_name" !in fields
    requires "status" in fields && fields["status"].JStr?
    requires fields["status"].s in HomeworkVerdicts
    ensures ParseStatus(JObject(fields)) == Err(UnboundLocalError("homework_name"))
  {
  }

  /** Different names under the same verdict give different notifications. */
  lemma MessageDeterminesName(n1: string, n2: string, verdict: string)
    requires Message(n1, verdict) == Message(n2, verdict)
    ensures n1 == n2
  {
    var m1, m2 := Message(n1, verdict), Message(n2, verdict);
    var p := |ChangedPrefix|;
    assert |n1| == |n2|;
    forall k | 0 <= k < |n1| ensures n1[k] == n2[k] {
      assert m1[p + k] == n1[k];
      assert m2[p + k] == n2[k];
    }
  }
}
