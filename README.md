# homework_bot: a Dafny model of the polling core

The bot polls the homework-review API on a fixed interval and tracks the first homework in each
answer. When that homework's review status changes, it posts a message through a Telegram bot.
It also posts a notice when a cycle fails, but does not repeat a notice for the same error text.
This project models the decision logic of `homework.py`:

- `errors.dfy` (module `Errors`): the exceptions the core raises, as an `Error` datatype with one
  constructor per exception class. `Str` gives Python's `str(error)`. Also the `Result` and
  `Option` wrappers.
- `json.dfy` (module `Json`): the decoded JSON body (`JNull | JBool | JInt | JStr | JList |
  JObject`). It also holds Python's `v[key]` (`Subscript`), truthiness (`Falsy`) and f-string
  rendering (`PyStr`).
- `check_response.dfy` (module `Validator`): `check_response`. The source's loop over the ordered
  required-key table is the method `CheckResponse`. It is proved equal to the declarative
  specification `Validate`, which is built from the per-key checks in `CheckEntry`.
- `parse_status.dfy` (module `StatusParser`): `HOMEWORK_VERDICTS` and `parse_status` as the pure
  function `ParseStatus`.
- `poll_loop.dfy` (module `PollLoop`): the body of `main`.
  - `Tick` is the specification of one loop iteration over the dedup state
    `(previous_status, previous_error)`, and `Replay` runs a finite sequence of iterations.
  - The class `Dedup` holds the two strings as fields. Its `Step` method is proved against `Tick`.
  - `Run` is `main` over a finite sequence of cycles. It checks the tokens, fixes the cursor once
    and loops over the cycles.

Each cycle's fetch result (`Fetched`) is an input. So is the fate of each of its two possible
sends (`Link`): the status message and the failure notice. `now` stands for `int(time.time())`.

Modelling choices:

- A JSON boolean passes the `current_date` check, because `isinstance(True, int)` holds in
  Python. `Validator.IsInstance` states this explicitly.
- A response or homework that is not a JSON object fails at `response[key]` with a `TypeError`.
  Only `KeyError` is caught, so this `TypeError` propagates.
- A list or dict `status` fails at the `not in HOMEWORK_VERDICTS` test with
  `TypeError: unhashable type`.
- Error texts are modelled exactly, because the loop compares `str(error)` texts and sends them.
  Texts that come from the interpreter use CPython 3.11 wording.

The model follows the code as written, including three behaviours a reader might not expect:

- `homeworks` is checked before `current_date`. A body with an empty list and no `current_date`
  fails on the index, not on the missing key.
- An empty `homeworks` list does not produce a "no homework" result with no message. It raises
  `IndexError`, and the loop sends the failure notice `list index out of range`. The
  `homework = False` initialiser is never returned.
- An unknown status raises `ValuesMissingError`. The code has a `ParseStatusError` class but
  never raises it.

## Model

| member | source | states |
|---|---|---|
| Json.Subscript | homework.py:89-94 | `v[key]` succeeds exactly for a dict holding `key` and yields its value; a dict without the key raises KeyError(key), any other kind raises TypeError |
| Errors.KeyErrorTextNamesKey | homework.py:115 | two KeyErrors have the same text exactly when they name the same key |
| Json.Digits | homework.py:123 | the decimal rendering of a natural number: non-empty, only digit characters, no leading zero, and denoting exactly that number |
| Json.PyStr | homework.py:123-127 | f-string rendering: a string as itself, None as `None`, a bool as `True` or `False`, an integer as a minus sign exactly when it is negative followed by the decimal digits, without leading zero, that denote its absolute value |
| Json.PyStrIntInjective | homework.py:123 | different integers render differently, so different unknown numeric statuses give different error texts |
| Validator.CheckEntry | homework.py:88-105 | one key's checks: success iff the response is a dict holding the key with a value of the expected kind, and then the value; CheckResponseError iff the key is absent; ValuesMissingError iff the value is None (so None is reported ahead of the kind check); a non-dict response raises TypeError |
| Validator.Validate | homework.py:79-108 | `check_response` returns normally iff the body is a dict with a non-empty `homeworks` list and an int (or bool) `current_date`, and then returns exactly `homeworks[0]`, never the `False` initialiser |
| Validator.CheckResponse | homework.py:79-108 | the loop over the ordered key table, with its early raises and the reassigned `homework`, returns or raises exactly what `Validate` specifies |
| Validator.HomeworksCheckedFirst | homework.py:84-94 | when the `homeworks` entry alone fails (absent, None, wrong kind or empty), the result is an error and does not depend on `current_date` at all |
| Validator.MissingHomeworksNamed | homework.py:89-94 | an absent `homeworks` raises CheckResponseError `'homeworks' is absent.` |
| Validator.MissingDateNamed | homework.py:84-94 | once `homeworks` passes, an absent `current_date` raises CheckResponseError `'current_date' is absent.` |
| Validator.NoneHomeworksBeforeKind | homework.py:95-98 | a None `homeworks` raises ValuesMissingError, not TypeError |
| Validator.NoneDateBeforeKind | homework.py:95-98 | a None `current_date` raises ValuesMissingError, not TypeError |
| Validator.HomeworksWrongKind | homework.py:102-105 | a non-list `homeworks` raises TypeError with the source's message |
| Validator.DateWrongKind | homework.py:102-105 | a `current_date` that is neither int nor bool raises TypeError with the source's message |
| Validator.EmptyHomeworksIsIndexError | homework.py:99-107 | an empty `homeworks` list is only logged as falsy, then fails at `[0]` with IndexError, whatever `current_date` is or whether it exists |
| Validator.FalsyDateOnlyLogged | homework.py:99-101 | a falsy but well-typed `current_date` (0 or False) gives exactly the outcome of a non-zero date |
| Validator.NonObjectIsTypeError | homework.py:88-94 | a body that is not a dict raises an uncaught TypeError |
| StatusParser.ParseStatus | homework.py:111-127 | success iff the record is a dict whose `status` is one of the table's keys and which has `homework_name`; the message is then the fixed prefix, the name in quotes, and the status's verdict; a missing `status` or a non-dict record fails with the subscript's own error |
| StatusParser.VerdictTable | homework.py:26-30 | the verdict table has exactly the keys `approved`, `reviewing`, `rejected` |
| StatusParser.KnownStatusMessage | homework.py:126-127 | for each of the three statuses and any string name, the exact localized message |
| StatusParser.UnknownStatusBeforeName | homework.py:116-125 | a hashable status outside the table (an unknown string, None, a number, a bool) raises ValuesMissingError `Unknown homework status: <status>`, whether or not `homework_name` is present |
| StatusParser.UnhashableStatus | homework.py:121 | a list or dict status raises TypeError `unhashable type: 'list'` (or `'dict'`) at the table lookup, whether or not `homework_name` is present |
| StatusParser.MissingStatusFirst | homework.py:115 | a record without `status` raises KeyError, whose text is `'status'` |
| StatusParser.MissingNameUnbound | homework.py:116-127 | a known status with no `homework_name` fails with UnboundLocalError on the name |
| StatusParser.MessageDeterminesName | homework.py:127 | under one verdict, different names give different messages, so a name change is never de-duplicated away |
| PollLoop.All | homework.py:47 | `all(values)` holds exactly when every value is set and non-empty |
| PollLoop.CheckTokens | homework.py:45-47 | the tokens pass exactly when all three variables are set and non-empty |
| PollLoop.Attempt | homework.py:143-152 | a cycle yields a status message exactly when the fetch gave a well-formed body whose first homework parses, and then that message; a fetch failure, a validation error or a parse error yields its `str` |
| PollLoop.HandleError | homework.py:149-154 | the `except` branch stores the error text, leaves `previous_status` alone, sends the notice only when the text is new and the send works, and ends the loop when that send fails |
| PollLoop.Tick | homework.py:142-154 | one iteration sends at most one message, and only one that differs from what was stored (a new status, or a notice for a new error text); a failing cycle never changes `previous_status`; `previous_status` only ever becomes the cycle's own message; a halt sends nothing and comes with a new error text |
| PollLoop.Replay | homework.py:141-155 | a run covers every cycle unless an exception escapes, and never more cycles than given |
| PollLoop.Dedup.constructor | homework.py:138-139 | both dedup strings start empty |
| PollLoop.Dedup.Step | homework.py:142-154 | one pass of the `try`/`except` updates the two fields, sends and halts exactly as `Tick` specifies |
| PollLoop.Run | homework.py:130-155 | `main` starts exactly when the tokens pass; missing tokens raise ValuesMissingError before any fetch; otherwise every fetch uses the same cursor `now - OBSERVATION_TIME`, and the messages delivered and the halt are those of `Replay` from empty strings |
| PollLoop.StatusSentIffChanged | homework.py:145-147 | a successful cycle sends its message iff it differs from `previous_status`, stores it, and leaves `previous_error` alone |
| PollLoop.ErrorNotifiedIffNew | homework.py:149-154 | a failing cycle sends `Сбой в работе программы: <error>` iff the text differs from `previous_error`, stores it, and leaves `previous_status` alone |
| PollLoop.StatusAssignedBeforeSend | homework.py:145-154 | `previous_status` is stored before the send, so when the status send fails only the failure notice (if its text is new) goes out, and the next identical cycle does not send the message either: it is lost |
| PollLoop.FailedNoticeHalts | homework.py:149-154 | a failed send of a new error notice escapes `main` and ends the loop, whatever cycles follow |
| PollLoop.SettledRepeatsQuietly | homework.py:141-155 | repeating a cycle whose outcome is already stored sends nothing and changes nothing, for any number of repetitions |
| PollLoop.RepeatedStatusSentOnce | homework.py:145-147 | any number of identical successful cycles sends the message once if it is new, never otherwise |
| PollLoop.RepeatedErrorNotifiedOnce | homework.py:149-154 | any number of identical failing cycles sends the notice once if the text is new, never otherwise |
| PollLoop.ErrorRepeatThenNew | homework.py:149-154 | two identical errors followed by a different one send exactly two notices |
| PollLoop.EmptyHomeworksNotifies | homework.py:143-154 | a body with an empty `homeworks` list yields the `list index out of range` failure notice, not silence |
| PollLoop.CoreFailureTextNonEmpty | homework.py:139-151 | every exception raised by `check_response` or `parse_status` has a non-empty text, so it never equals the initial `previous_error` |
| PollLoop.FirstCoreFailureNotified | homework.py:138-154 | from the initial state, a cycle whose body fails validation or parsing stores the error text and sends its notice, when the send works |
| PollLoop.ApprovedScenario | homework.py:143-147 | the first cycle on an approved homework named `Proj1` sends the approved notification verbatim |

## Left out

- `get_api_answer` (homework.py:63-76) is not modelled. It performs an HTTP GET, maps status
  codes and decodes JSON. Each cycle's outcome is an input instead: the decoded body, or the
  `str` of the exception it raised.
- `send_message` (homework.py:50-60) is not modelled. Whether the status send and the notice
  send of a cycle deliver are two inputs (`Link`). When a send fails, the text of the exception
  that reaches `main` is also an input. Line 58 calls the caught exception instance, and that
  call raises a TypeError of its own; its text is part of that input.
- Creating the bot with `telegram.Bot(token=...)` (homework.py:136) can raise before the first
  fetch. The model assumes it succeeds.
- Logging, `load_dotenv`, the environment reads and the module-level configuration
  (homework.py:13-23, 33-42) are not modelled. The token values are the `Env` parameter, and
  no log lines are produced.
- `time.sleep(RETRY_PERIOD)` and the endless `while True` (homework.py:141, 155) are replaced by
  a finite sequence of cycles.
- JSON floating-point numbers are not in the value model.
- Python dicts keep key order and JSON objects may repeat keys; a Dafny map records neither.
- Json.PyStr: when `homework_name` is a list or a dict, the f-string shows Python's `repr` of it;
  the model shows the fixed markers `[...]` and `{...}` instead. This is exact for None, booleans,
  integers and strings.
- Interpreter-generated error texts (non-subscriptable values, unhashable statuses, the unbound
  local) follow CPython 3.11. Other Python versions word some of them differently.
- `TelegramBotError` and `ParseStatusError` (exceptions.py:1-2, 17-18) are never raised by the
  core. `GetApiAnswerError` reaches the loop only as a fetch-failure text.
