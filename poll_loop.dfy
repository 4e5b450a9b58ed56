/**
 * The body of `main`: the token check, the fixed fetch cursor, and the poll
 * loop that de-duplicates status messages and error notices through two
 * strings, `previous_status` and `previous_error`.
 *
 * The HTTP fetch and the Telegram send are not modelled as code: each cycle's
 * fetch outcome, and whether each of its sends delivers, are inputs.
 */
module PollLoop {
  import opened Errors
  import opened Json
  import opened Validator
  import opened StatusParser

  /** OBSERVATION_TIME: how far back, in seconds, the cursor starts. */
  const ObservationTime: int := 60 * 60 * 24 * 120

  /** The three environment variables; None when unset. */
  datatype Env = Env(practicumToken: Option<string>,
                     telegramToken: Option<string>,
                     telegramChatId: Option<string>)

  /** A value `all([...])` counts as present: set and non-empty. */
  predicate Present(t: Option<string>)
  {
    t.Some? && t.value != ""
  }

  /** Python's `all(values)` over optional strings. */
  function All(values: seq<Option<string>>): (ok: bool)
    ensures ok <==> forall k :: 0 <= k < |values| ==> Present(values[k])
  {
    if values == [] then true else Present(values[0]) && All(values[1..])
  }

  /** `check_tokens()`: true exactly when all three variables are set and
      non-empty. */
  function CheckTokens(env: Env): (ok: bool)
    ensures ok <==> Present(env.practicumToken) && Present(env.telegramToken)
                    && Present(env.telegramChatId)
  {
    var values := [env.telegramToken, env.telegramChatId, env.practicumToken];
    assert values[0] == env.telegramToken && values[1] == env.telegramChatId;
    assert values[2] == env.practicumToken;
    All(values)
  }

  /** What `get_api_answer(timestamp)` produced in one cycle: the decoded body,
      or the text of the exception it raised. */
  datatype Fetched = Body(json: JValue) | FetchFailed(text: string)

  /** Whether one `send_message` call delivers; when it does not, the text of
      the exception that reaches the caller. */
  datatype Link = Up | Down(text: string)

  /** One iteration's inputs: the fetch outcome, how a status send would fare,
      and how a failure-notice send would fare. */
  datatype Cycle = Cycle(fetched: Fetched, statusSend: Link, noticeSend: Link)

  /** The outcome of the `try` body before any send: the status message, or
      `str(error)` of the exception raised. */
  datatype Outcome = Status(message: string) | Failure(text: string)

  /** The two de-duplication strings. */
  datatype State = State(previousStatus: string, previousError: string)

  /** Both strings start empty. */
  const Initial := State("", "")

  /** One cycle's effect: the next state, the messages delivered, and whether an
      exception escaped `main` (a failed send inside the error handler). */
  datatype Transition = Transition(next: State, sent: seq<string>, halted: bool)

  /** The notice sent for an exception whose `str` is `text`. */
  function Notice(text: string): string
  {
    "Сбой в работе программы: " + text
  }

  /** fetch, `check_response`, `parse_status`: a status message exactly when the
      body is well formed and its first homework parses, and then that message. */
  function Attempt(f: Fetched): (r: Outcome)
    ensures f.FetchFailed? ==> r == Failure(f.text)
    ensures r.Status? <==> && f.Body? && WellFormed(f.json)
                           && ParseStatus(f.json.fields["homeworks"].items[0]).Ok?
    ensures r.Status? ==> r.message == ParseStatus(f.json.fields["homeworks"].items[0]).value
    ensures f.Body? && Validate(f.json).Err? ==> r == Failure(Str(Validate(f.json).error))
    ensures f.Body? && Validate(f.json).Ok? && ParseStatus(Validate(f.json).value).Err? ==>
      r == Failure(Str(ParseStatus(Validate(f.json).value).error))
  {
    match f
    case FetchFailed(text) => Failure(text)
    case Body(json) =>
      match Validate(json)
      case Err(e) => Failure(Str(e))
      case Ok(homework) =>
        match ParseStatus(homework)
        case Err(e) => Failure(Str(e))
        case Ok(message) => Status(message)
  }

  /** The `except` branch: notify only when the error text is new. The text is
      stored before the notice is sent; a failed notice escapes the loop. */
  function HandleError(s: State, text: string, link: Link): (t: Transition)
    ensures t.next == State(s.previousStatus, text)
    ensures t.sent == (if text != s.previousError && link.Up? then [Notice(text)] else [])
    ensures t.halted <==> text != s.previousError && link.Down?
  {
    if text == s.previousError then Transition(s, [], false)
    else
      var s' := s.(previousError := text);
      match link
      case Up => Transition(s', [Notice(text)], false)
      case Down(_) => Transition(s', [], true)
  }

  /** One iteration of the `while True` loop. A new status message is stored in
      `previous_status` before it is sent, so a failed send does not undo it;
      the failed send is then handled like any other error of the cycle.
      At most one message goes out, and only one that differs from what was
      stored; a failing cycle leaves `previous_status` alone. */
  function Tick(s: State, c: Cycle): (t: Transition)
    ensures |t.sent| <= 1
    ensures t.sent != [] ==>
      || (t.sent == [t.next.previousStatus] && t.next.previousStatus != s.previousStatus
          && t.next.previousError == s.previousError)
      || (t.sent == [Notice(t.next.previousError)] && t.next.previousError != s.previousError)
    ensures t.next.previousStatus == s.previousStatus
         || Attempt(c.fetched) == Status(t.next.previousStatus)
    ensures Attempt(c.fetched).Failure? ==> t.next.previousStatus == s.previousStatus
    ensures t.halted ==> t.sent == [] && t.next.previousError != s.previousError
  {
    match Attempt(c.fetched)
    case Failure(text) => HandleError(s, text, c.noticeSend)
    case Status(m) =>
      if m == s.previousStatus then Transition(s, [], false)
      else
        var s' := s.(previousStatus := m);
        match c.statusSend
        case Up => Transition(s', [m], false)
        case Down(text) => HandleError(s', text, c.noticeSend)
  }

  /** The result of running the loop over a sequence of cycles. */
  datatype Trace = Trace(final: State, sent: seq<string>, ran: nat, halted: bool)

  /** Runs `cycles` from `s` until they are used up or an exception escapes. */
  function Replay(s: State, cycles: seq<Cycle>): (t: Trace)
    ensures t.ran <= |cycles|
    ensures !t.halted ==> t.ran == |cycles|
    decreases |cycles|
  {
    if cycles == [] then Trace(s, [], 0, false)
    else
      var step := Tick(s, cycles[0]);
      if step.halted then Trace(step.next, step.sent, 1, true)
      else
        var rest := Replay(step.next, cycles[1..]);
        Trace(rest.final, step.sent + rest.sent, 1 + rest.ran, rest.halted)
  }

  /** One more cycle of the loop keeps `total` split into what has been sent
      so far and what replaying the remaining cycles will send. */
  lemma ReplayAdvance(total: Trace, s: State, cycles: seq<Cycle>, i: nat,
                      outbox: seq<string>, t: Transition)
    requires i < |cycles| && t == Tick(s, cycles[i])
    requires var rest := Replay(s, cycles[i..]);
      total == Trace(rest.final, outbox + rest.sent, i + rest.ran, rest.halted)
    ensures !t.halted ==> var rest := Replay(t.next, cycles[i + 1..]);
      total == Trace(rest.final, outbox + t.sent + rest.sent, i + 1 + rest.ran, rest.halted)
    ensures t.halted ==> total == Trace(t.next, outbox + t.sent, i + 1, true)
  {
  }

  /** The loop's two local strings, updated in place each cycle. */
  class Dedup {
    var previousStatus: string
    var previousError: string

    constructor ()
      ensures previousStatus == "" && previousError == ""
    {
      previousStatus := "";
      previousError := "";
    }

    function Current(): State
      reads this
    {
      State(previousStatus, previousError)
    }

    /** One pass through the `try`/`except` of the loop body. */
    method Step(c: Cycle) returns (sent: seq<string>, halted: bool)
      modifies this
      ensures Transition(Current(), sent, halted) == Tick(old(Current()), c)
    {
      sent, halted := [], false;
      var failure: Option<string> := None;
      match c.fetched {
        case FetchFailed(text) =>
          failure := Some(text);
        case Body(json) =>
          var homework := CheckResponse(json);
          if homework.Err? {
            failure := Some(Str(homework.error));
          } else {
            // `parse_status` is pure, so its two calls in the source agree
            var parsed := ParseStatus(homework.value);
            if parsed.Err? {
              failure := Some(Str(parsed.error));
            } else if previousStatus != parsed.value {
              previousStatus := parsed.value;
              match c.statusSend {
                case Up => sent := [previousStatus];
                case Down(text) => failure := Some(text);
              }
            }
          }
      }
      if failure.Some? && failure.value != previousError {
        previousError := failure.value;
        match c.noticeSend {
          case Up => sent := [Notice(previousError)];
          case Down(_) => halted := true;
        }
      }
    }
  }

  /** What `main` leaves behind: the cursor of every fetch it made, the
      messages delivered, and whether an exception ended it. */
  datatype Report = Report(cursors: seq<int>, outbox: seq<string>, halted: bool)

  /** `main` over a finite sequence of cycles, with `now` for `int(time.time())`. */
  method Run(env: Env, now: int, cycles: seq<Cycle>) returns (r: Result<Report>)
    ensures r.Ok? <==> CheckTokens(env)
    ensures !CheckTokens(env) ==> r == Err(ValuesMissingError("Environment variable is missing."))
    ensures r.Ok? ==> var t := Replay(Initial, cycles);
      && r.value.outbox == t.sent
      && r.value.halted == t.halted
      && |r.value.cursors| == t.ran
      && forall k :: 0 <= k < |r.value.cursors| ==> r.value.cursors[k] == now - ObservationTime
  {
    if !CheckTokens(env) {
      return Err(ValuesMissingError("Environment variable is missing."));
    }
    var timestamp := now - ObservationTime;
    var loop := new Dedup();
    var cursors, outbox, halted := [], [], false;
    ghost var total := Replay(Initial, cycles);
    var i := 0;
    while i < |cycles| && !halted
      invariant 0 <= i <= |cycles|
      invariant |cursors| == i
      invariant forall k :: 0 <= k < i ==> cursors[k] == timestamp
      invariant !halted ==> var rest := Replay(loop.Current(), cycles[i..]);
        total == Trace(rest.final, outbox + rest.sent, i + rest.ran, rest.halted)
      invariant halted ==> total == Trace(loop.Current(), outbox, i, true)
    {
      ghost var before := loop.Current();
      cursors := cursors + [timestamp];
      var sent, h := loop.Step(cycles[i]);
      ghost var after := loop.Current();
      ReplayAdvance(total, before, cycles, i, outbox, Transition(after, sent, h));
      outbox := outbox + sent;
      halted := h;
      i := i + 1;
    }
    assert !halted ==> cycles[i..] == [];
    return Ok(Report(cursors, outbox, halted));
  }

  /** A successful cycle sends its message iff it differs from
      `previous_status`; afterwards `previous_status` is that message and
      `previous_error` is untouched. */
  lemma StatusSentIffChanged(s: State, c: Cycle, m: string)
    requires Attempt(c.fetched) == Status(m) && c.statusSend == Up
    ensures Tick(s, c).sent == (if m != s.previousStatus then [m] else [])
    ensures Tick(s, c).next == State(m, s.previousError)
    ensures !Tick(s, c).halted
  {
  }

  /** A failing cycle sends the notice iff its text differs from
      `previous_error`, then stores that text; `previous_status` is untouched. */
  lemma ErrorNotifiedIffNew(s: State, c: Cycle, text: string)
    requires Attempt(c.fetched) == Failure(text) && c.noticeSend == Up
    ensures Tick(s, c).sent == (if text != s.previousError then [Notice(text)] else [])
    ensures Tick(s, c).next == State(s.previousStatus, text)
    ensures !Tick(s, c).halted
  {
  }

  /** `previous_status` is assigned before the send: when the status send
      fails, the message stays stored, the failure is handled as an error of
      the cycle (notified if its text is new), and a later identical cycle
      whose send would succeed does not send the message either. */
  lemma StatusAssignedBeforeSend(s: State, c: Cycle, m: string, text: string)
    requires Attempt(c.fetched) == Status(m) && m != s.previousStatus
    requires c.statusSend == Down(text) && c.noticeSend == Up
    ensures Tick(s, c)
         == Transition(State(m, text), if text != s.previousError then [Notice(text)] else [], false)
    ensures Replay(s, [c, c.(statusSend := Up)]).sent
         == (if text != s.previousError then [Notice(text)] else [])
  {
    var c' := c.(statusSend := Up);
    assert [c, c'][1..] == [c'];
    assert Attempt(c'.fetched) == Status(m);
    assert Replay(State(m, text), [c']) == Trace(State(m, text), [], 1, false);
  }

  /** A failed send inside the error handler ends the loop. */
  lemma FailedNoticeHalts(s: State, c: Cycle, text: string, reason: string)
    requires Attempt(c.fetched) == Failure(text) && text != s.previousError
    requires c.noticeSend == Down(reason)
    ensures Tick(s, c) == Transition(State(s.previousStatus, text), [], true)
    ensures forall more :: Replay(s, [c] + more) == Trace(State(s.previousStatus, text), [], 1, true)
  {
  }

  /** The cycle's outcome is the one already stored, so nothing is sent. */
  predicate Settled(s: State, c: Cycle)
  {
    match Attempt(c.fetched)
    case Status(m) => m == s.previousStatus
    case Failure(text) => text == s.previousError
  }

  /** Repeating a settled cycle sends nothing and changes nothing. */
  lemma {:induction false} SettledRepeatsQuietly(s: State, c: Cycle, n: nat)
    requires Settled(s, c)
    ensures Replay(s, seq(n, _ => c)) == Trace(s, [], n, false)
  {
    if n > 0 {
      var cs := seq(n, _ => c);
      assert cs[0] == c && cs[1..] == seq(n - 1, _ => c);
      assert Tick(s, c) == Transition(s, [], false);
      SettledRepeatsQuietly(s, c, n - 1);
    }
  }

  /** Any number of identical successful cycles sends the message at most once:
      once if it differs from `previous_status`, never otherwise. */
  lemma RepeatedStatusSentOnce(s: State, c: Cycle, m: string, n: nat)
    requires Attempt(c.fetched) == Status(m) && c.statusSend == Up && n > 0
    ensures Replay(s, seq(n, _ => c)).sent == (if m != s.previousStatus then [m] else [])
    ensures Replay(s, seq(n, _ => c)).final == State(m, s.previousError)
  {
    var cs := seq(n, _ => c);
    var s' := State(m, s.previousError);
    assert cs[0] == c && cs[1..] == seq(n - 1, _ => c);
    StatusSentIffChanged(s, c, m);
    SettledRepeatsQuietly(s', c, n - 1);
  }

  /** Any number of identical failing cycles sends the notice at most once. */
  lemma RepeatedErrorNotifiedOnce(s: State, c: Cycle, text: string, n: nat)
    requires Attempt(c.fetched) == Failure(text) && c.noticeSend == Up && n > 0
    ensures Replay(s, seq(n, _ => c)).sent
         == (if text != s.previousError then [Notice(text)] else [])
    ensures Replay(s, seq(n, _ => c)).final == State(s.previousStatus, text)
  {
    var cs := seq(n, _ => c);
    var s' := State(s.previousStatus, text);
    assert cs[0] == c && cs[1..] == seq(n - 1, _ => c);
    ErrorNotifiedIffNew(s, c, text);
    SettledRepeatsQuietly(s', c, n - 1);
  }

  /** Two identical errors then a different one: two notices, the repeat
      suppressed. */
  lemma ErrorRepeatThenNew(s: State, c1: Cycle, c2: Cycle, t1: string, t2: string)
    requires Attempt(c1.fetched) == Failure(t1) && c1.noticeSend == Up
    requires Attempt(c2.fetched) == Failure(t2) && c2.noticeSend == Up
    requires t1 != s.previousError && t1 != t2
    ensures Replay(s, [c1, c1, c2]).sent == [Notice(t1), Notice(t2)]
  {
    var s1 := State(s.previousStatus, t1);
    assert [c1, c1, c2][1..] == [c1, c2] && [c1, c2][1..] == [c2];
    assert Replay(s1, [c2]).sent == [Notice(t2)];
    assert Replay(s1, [c1, c2]).sent == [Notice(t2)];
  }

  /** A body whose `homeworks` list is empty yields the IndexError notice, not
      silence. */
  lemma EmptyHomeworksNotifies(s: State, fields: map<string, JValue>)
    requires "homeworks" in fields && fields["homeworks"] == JList([])
    requires s.previousError != "list index out of range"
    ensures Tick(s, Cycle(Body(JObject(fields)), Up, Up)).sent
         == ["Сбой в работе программы: " + "list index out of range"]
  {
  }

  /** Every exception `check_response` or `parse_status` raises has a non-empty
      text, so it always differs from the initial `previous_error`. */
  lemma CoreFailureTextNonEmpty(j: JValue)
    ensures Attempt(Body(j)).Failure? ==> Attempt(Body(j)).text != ""
  {
  }

  /** From the initial state, the first cycle whose body fails validation or
      parsing always notifies that failure. */
  lemma FirstCoreFailureNotified(c: Cycle)
    requires c.fetched.Body? && c.noticeSend.Up?
    requires Attempt(c.fetched).Failure?
    ensures var text := Attempt(c.fetched).text;
            Tick(Initial, c) == Transition(State("", text), [Notice(text)], false)
  {
    CoreFailureTextNonEmpty(c.fetched.json);
  }

  /** The first cycle on a well-formed body with an approved homework sends the
      approved notification. */
  lemma ApprovedScenario()
    ensures
      var homework := JObject(map["status" := JStr("approved"), "homework_name" := JStr("Proj1")]);
      var body := JObject(map["homeworks" := JList([homework]), "current_date" := JInt(1000)]);
      Replay(Initial, [Cycle(Body(body), Up, Up)]).sent
        == ["Изменился статус проверки работы \"" + "Proj1" + "\". "
            + "Работа проверена: ревьюеру всё понравилось. Ура!"]
  {
  }
}
