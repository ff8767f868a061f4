# Homework-status bot: the polling step

A Telegram bot polls a homework-review API every ten minutes. It forwards a
notification to one chat whenever the status of the most recent submission
changes, and it reports errors to the same chat. This project models the
bot's decision logic in Dafny and proves properties of it:

- `check_response` sorts a decoded answer into the homework list, an
  empty-payload error or a malformed-answer error;
- `parse_status` turns a homework record into the notification text through
  the three-entry verdict table, or raises a parse error;
- one iteration of the `while True` loop in `main` is a pure function
  `Step(state, fetch, delivered)` over the loop's two variables, the
  `from_date` watermark and `previous_status`. The fetch result and the
  outcome of `send_message` are inputs.

Modules:

- `Wrappers` (wrappers.dfy): `Option` and `Result`.
- `Json` (json.dfy): decoded JSON values, with Python's `in`, `.get` and `str()`.
- `Errors` (errors.dfy): the exceptions the loop can catch, as one datatype.
  `ParseValue`, `ErrorAnswer` and `EmptyResponseApi` are the three classes of
  exceptions.py. `TypeError` and `AttributeError` are the built-ins that the
  checks raise. `Other(kind, message)` is any other exception, such as the
  decode error of a body that is not JSON.
- `Homework` (homework.dfy): the verdict table, `CheckResponse`,
  `ParseStatus`, and a reader that recovers name and status from a
  notification.
- `Poller` (poller.dfy): the loop state, `Step`, and `Run` over several cycles.

Several source quirks are kept as written:

- `previous_status` is `NoStatus | Msg(text) | Err(error)`. The loop compares
  the caught exception object with `previous_status` (homework.py:153). A
  freshly raised object never equals anything it is compared with, so that
  test always passes. As a result, error reports are never deduplicated.
  After an error has been delivered, the next status text is sent even if
  it was delivered before.
- The watermark takes whatever JSON value the answer's `current_date` holds.
  It keeps its old value only when that key is absent.
- `parse_status` calls `.get` first. A record that is not a dictionary
  therefore raises AttributeError.
- A list or dictionary `status` raises TypeError when it is looked up in
  the table, because it is unhashable. Any other unknown status raises
  ParseValueException.
- A missing `homework_name` is detected before the status is examined.

## Model

| member | source | states |
|---|---|---|
| Json.GetOr | homework.py:143 | `d.get(key, default)` yields the default when the key is absent, and otherwise a value stored under the key |
| Json.DefaultIrrelevant | homework.py:143 | when the key is present, the default passed to `.get` does not affect the result |
| Homework.CheckResponse | homework.py:87-103 | non-object answer gives TypeError; object without `homeworks` gives EmptyResponseApiException; non-list `homeworks` gives TypeError; success exactly when `homeworks` is a list, and the result is that list unchanged |
| Homework.CheckAnswer | homework.py:98-103 | any object with one field per key whose `homeworks` field holds a list passes with exactly that list, wherever that field stands among the others |
| Homework.EmptyPayloadIsNotEmptyList | homework.py:94-103 | a missing `homeworks` key is an empty-payload error, while a present empty list is a successful `[]` |
| Homework.ParseStatus | homework.py:106-120 | non-dictionary gives AttributeError; missing `homework_name` gives ParseValueException before any status check; list or dict status gives unhashable TypeError; other unknown status gives ParseValueException with the status text; success exactly when the name is present and the status is a table key, with text `Изменился статус проверки работы "<name>". <verdict>` |
| Homework.TailsEndApart | homework.py:26-30 | the three verdict texts end differently, so a notification ends with the tail of one status only |
| Homework.ReadAsOwnStatus | homework.py:118-120 | a notification, read as one for its own status, yields exactly the interpolated name |
| Homework.ReadStatusMessage | homework.py:118-120 | reading a notification back recovers the interpolated name and the status |
| Homework.SameMessageSameRecord | homework.py:106-120 | two records announced with the same text have the same name text and the same status |
| Poller.PollOnce | homework.py:136-140 | a new-status outcome only comes from a fetched object answer whose first record `parse_status` announces with that text, and it keeps that answer's fields |
| Poller.PollOnceOutcomes | homework.py:136-140 | the `try` block gives no change exactly when the checked list is empty, the new-status outcome exactly when `parse_status` of the first record gives that text, and the raised outcome exactly when the fetch, `check_response` or `parse_status` raised that exception |
| Poller.Step | homework.py:135-154 | the state changes only when a send was attempted and succeeded; a delivered send leaves its text or error as `previous_status`; the watermark moves only when a status text is delivered |
| Poller.StepDeduplicates | homework.py:141 | a status text equal to `previous_status` is not sent, and the state stays the same |
| Poller.StepNewStatus | homework.py:141-144 | a different status text is sent; if delivered, the watermark becomes `.get('current_date', timestamp)` of the answer and the text is remembered; if not delivered, nothing changes |
| Poller.StepNewStatusWatermark | homework.py:143 | a delivered new status text sets the watermark to the answer's `current_date`, or keeps it when the answer has none |
| Poller.StepIdempotent | homework.py:135-154 | repeating a step with the same fetch result and send outcome leaves the state where the first step left it |
| Poller.RepeatedStatusNotResent | homework.py:139-144 | after a delivered status step, repeating the same answer sends nothing and leaves the state as it is |
| Poller.StepNoHomeworks | homework.py:139-146 | an empty `homeworks` list sends nothing and changes nothing |
| Poller.StepEmptyPayload | homework.py:148-149 | an object answer without `homeworks` sends nothing and changes nothing |
| Poller.StepReportsError | homework.py:151-154 | any error other than an empty payload, raised by the fetch, `check_response` or `parse_status`, is handed to `send_message` as the exception object whatever was sent before; the watermark stays; on delivery the error becomes `previous_status`, and otherwise nothing changes |
| Poller.StepNonObjectAnswer | homework.py:90-92 | an answer that is not an object is handed to `send_message` as the TypeError with the malformed-answer text, never treated as an empty payload |
| Poller.UndecodableBodyIsReported | homework.py:84 | an example of the error report: the decode error of a body that is not JSON, which the fetch's own `try` does not wrap, is handed to `send_message` and does not move the watermark |
| Poller.StatusResentAfterError | homework.py:153-154 | once an error has been remembered, the next status text is always sent |
| Poller.ErrorReportedEveryCycle | homework.py:153-154 | the same error in two consecutive cycles is sent both times |
| Poller.StatusChangeIsSent | homework.py:139-144 | if the most recent record's status differs from that of the record behind the remembered text, the new text is sent |
| Poller.Run | homework.py:134-157 | over any sequence of cycles, the state changes only if something was delivered, and the watermark moves only if a status text was delivered |
| Poller.AlreadyDeliveredStaysQuiet | homework.py:141 | cycles that all announce the text already delivered send nothing and change nothing |
| Poller.SameStatusDeliveredOnce | homework.py:139-144 | while the answers keep announcing one text, it is delivered at most once, and not at all if it is already remembered |
| Poller.DeliveredStatusIsRemembered | homework.py:141-144 | while the answers keep announcing one text, a failed send is retried, so after any cycle whose send succeeds the text is remembered |
| Poller.ApprovedAnswerFromStart | homework.py:131-144 | from the initial state, the answer for "X" approved at 1000 sends the approval text, and on delivery the watermark becomes 1000 |
| Poller.NamelessRecordIsReported | homework.py:112-113 | a record without `homework_name` is reported as a ParseValueException, and the watermark does not move |

## Left out

- `get_api_answer` (HTTP request, status-code check, JSON decoding) is not modelled. Its result is the `Fetch` input: either the decoded body or the exception it raised, which is an ErrorAnswerException for a transport failure or a non-200 status, or, for a body that is not JSON, the decoder's error as an `Other` variant. The texts of these exceptions are part of that input.
- `send_message` (the Telegram call) is not modelled. Its boolean result is the `delivered` input of `Step`. The loop passes the exception object itself as the message text; what the messaging library does with a non-string text is outside the model.
- `check_tokens`, reading the environment, `sys.exit`, the bot's construction, logging, and `time.sleep(RETRY_PERIOD)` are left out. They are I/O with no decision logic. The infinite loop itself appears only as `Run` over a finite sequence of cycles.
- JSON numbers are integers only. Floating-point values and their `str()` are not modelled.
- Json.Repr: this is Python's `repr()` with one simplification. Strings inside lists and dictionaries are always single-quoted and never escaped, whereas Python switches quotes and escapes special characters. Error texts that embed a list- or dictionary-valued record or status differ from Python's in those cases.
- Decoded objects are field sequences in document order, with one field per key as the decoder produces them (`Json.DistinctKeys`). Lookup takes the first field with the key; the type itself admits repeated keys, for which Python's dict would keep the last value, so only `Homework.CheckAnswer` states its claim under `DistinctKeys`.
- Poller.StepReportsError: `send_message` catches only `telegram.error.TelegramError` (homework.py:56). Any other exception raised by the send at homework.py:153 happens inside the `except` handler, so it escapes the loop and ends `main` after the `finally` sleep. The boolean `delivered` cannot express that early exit. One possible cause is a client that JSON-encodes the request and rejects a text that is an exception object rather than a string.
- Poller.PreviousStatus: exception objects are compared by their content, not by identity. The loop's own comparison with a caught error is modelled as always unequal (`SameError`). One consequence: when an error is delivered while a structurally equal error is remembered, the model's state is unchanged, whereas Python stores the new exception object.
