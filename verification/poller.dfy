/**
 One iteration of the bot's polling loop: fetch the answer, check it, parse
 the most recent record, and notify the chat when the status text changed;
 any error other than an empty payload is reported to the chat instead. The
 fetch result and the outcome of the send are inputs of the step.
 */
module Poller {
  import opened Wrappers
  import opened Json
  import opened Errors
  import opened Homework

  /**
   What the loop remembers as `previous_status`: nothing yet, the last status
   text it delivered, or the last exception object it delivered.

   Python compares it with `!=`. A string equals only the same string. An
   exception object equals only itself, and every iteration raises a fresh one,
   so the comparison with the caught error is always unequal: error reports are
   never deduplicated, and once an error was delivered the next status text is
   always sent again, even if it was already delivered before the error.
   */
  datatype PreviousStatus = NoStatus | Msg(text: string) | Err(error: Error)
  {
    /** `previous_status == text` for a status text. */
    predicate SameText(text: string) {
      Msg? && this.text == text
    }

    /** `previous_status == error` for the exception just caught: never, as that object is new. */
    predicate SameError(e: Error) {
      false
    }
  }

  /** The loop's variables: the `from_date` watermark and `previous_status`. */
  datatype State = State(timestamp: Json, previous: PreviousStatus)

  /** The state before the first iteration. */
  const Initial: State := State(JNum(0), NoStatus)

  /**
   What `get_api_answer` did: return the decoded body, or raise. A transport
   failure or a status other than 200 is wrapped as ErrorAnswerException by
   the fetch's own handler; the decode error of a body that is not JSON is
   raised after that handler and arrives unwrapped, as an `Other` error.
   */
  datatype Fetch = Fetched(body: Json) | FetchFailed(error: Error)

  /** What the step hands to `send_message`: a status text, or the caught exception object itself. */
  datatype Outgoing = StatusText(text: string) | ErrorReport(error: Error)

  /** What the `try` block arrives at before any notification is sent. */
  datatype Poll =
    | NoChanges
    | NewStatus(text: string, response: seq<(string, Json)>)
    | Raised(error: Error)

  /** What one iteration does: its new state and what it handed to `send_message`, if anything. */
  datatype StepResult = StepResult(state: State, sent: Option<Outgoing>)

  /** The fetch succeeded and its answer passed the check with an empty `homeworks` list. */
  predicate NoHomeworks(fetch: Fetch) {
    fetch.Fetched? && CheckResponse(fetch.body) == Success([])
  }

  /** The most recent record of a fetched answer is announced with `text`. */
  predicate Announces(fetch: Fetch, text: string) {
    && fetch.Fetched?
    && CheckResponse(fetch.body).Success?
    && |CheckResponse(fetch.body).value| > 0
    && ParseStatus(CheckResponse(fetch.body).value[0]) == Success(text)
  }

  /** The fetch, the answer check or the parse of the most recent record raised `e`. */
  predicate Fails(fetch: Fetch, e: Error) {
    || fetch == FetchFailed(e)
    || (fetch.Fetched? && CheckResponse(fetch.body) == Failure(e))
    || (&& fetch.Fetched?
        && CheckResponse(fetch.body).Success?
        && |CheckResponse(fetch.body).value| > 0
        && ParseStatus(CheckResponse(fetch.body).value[0]) == Failure(e))
  }

  /**
   The `try` block up to the status comparison: no change for an empty list,
   the text `parse_status` gives the first record, or the exception raised
   by the fetch, the answer check or the parse, in that order.
   */
  function PollOnce(fetch: Fetch): (p: Poll)
    ensures p.NewStatus? ==> Announces(fetch, p.text) && p.response == fetch.body.fields
  {
    match fetch
    case FetchFailed(e) => Raised(e)
    case Fetched(body) =>
      match CheckResponse(body)
      case Failure(e) => Raised(e)
      case Success(homeworks) =>
        if |homeworks| == 0 then NoChanges
        else
          match ParseStatus(homeworks[0])
          case Failure(e) => Raised(e)
          case Success(text) => NewStatus(text, body.fields)
  }

  /**
   The outcomes of the `try` block, each in both directions: no change for an
   empty list, the announced text of the first record, or the exception raised
   by the fetch, the answer check or the parse.
   */
  lemma PollOnceOutcomes(fetch: Fetch, text: string, e: Error)
    ensures PollOnce(fetch) == NoChanges <==> NoHomeworks(fetch)
    ensures (PollOnce(fetch).NewStatus? && PollOnce(fetch).text == text) <==> Announces(fetch, text)
    ensures PollOnce(fetch) == Raised(e) <==> Fails(fetch, e)
  {
  }

  /** The state a delivered notification leaves behind. */
  function Remember(out: Outgoing): PreviousStatus {
    match out
    case StatusText(text) => Msg(text)
    case ErrorReport(e) => Err(e)
  }

  /**
   One iteration of the polling loop, with `delivered` the result
   `send_message` returns if it is called.
   */
  function Step(s: State, fetch: Fetch, delivered: bool): (r: StepResult)
    ensures r.sent.None? ==> r.state == s
    ensures r.state != s ==> delivered && r.sent.Some?
    ensures delivered && r.sent.Some? ==> r.state.previous == Remember(r.sent.value)
    ensures r.state.timestamp != s.timestamp ==> r.sent.Some? && r.sent.value.StatusText?
  {
    match PollOnce(fetch)
    case NoChanges => StepResult(s, None)
    case NewStatus(text, response) =>
      if s.previous.SameText(text) then StepResult(s, None)
      else if delivered then
        StepResult(State(GetOr(response, "current_date", s.timestamp), Msg(text)), Some(StatusText(text)))
      else StepResult(s, Some(StatusText(text)))
    case Raised(e) =>
      if e.EmptyResponseApi? then StepResult(s, None)
      else if s.previous.SameError(e) then StepResult(s, None)
      else if delivered then StepResult(State(s.timestamp, Err(e)), Some(ErrorReport(e)))
      else StepResult(s, Some(ErrorReport(e)))
  }

  /** A status text equal to the remembered one is not sent again and changes nothing. */
  lemma StepDeduplicates(s: State, fetch: Fetch, delivered: bool, text: string)
    requires Announces(fetch, text) && s.previous == Msg(text)
    ensures Step(s, fetch, delivered) == StepResult(s, None)
  {
  }

  /**
   A status text different from the remembered one is sent; on delivery the
   watermark becomes `.get('current_date', timestamp)` of the answer and the
   text is remembered; otherwise nothing changes.
   */
  lemma StepNewStatus(s: State, fetch: Fetch, delivered: bool, text: string)
    requires Announces(fetch, text) && s.previous != Msg(text)
    ensures Step(s, fetch, delivered).sent == Some(StatusText(text))
    ensures delivered ==>
              Step(s, fetch, delivered).state == State(GetOr(fetch.body.fields, "current_date", s.timestamp), Msg(text))
    ensures !delivered ==> Step(s, fetch, delivered).state == s
  {
  }

  /**
   A delivered new status text moves the watermark to the answer's
   `current_date`, or leaves it where it was when the answer has none.
   */
  lemma StepNewStatusWatermark(s: State, fetch: Fetch, text: string)
    requires Announces(fetch, text) && s.previous != Msg(text)
    ensures Has(fetch.body.fields, "current_date") ==>
              Step(s, fetch, true).state.timestamp == Get(fetch.body.fields, "current_date")
    ensures !Has(fetch.body.fields, "current_date") ==>
              Step(s, fetch, true).state.timestamp == s.timestamp
  {
    if Has(fetch.body.fields, "current_date") {
      DefaultIrrelevant(fetch.body.fields, "current_date", s.timestamp, JNull);
    }
  }

  /** Repeating a step with the same answer and the same send outcome leaves the state where the first left it. */
  lemma StepIdempotent(s: State, fetch: Fetch, delivered: bool)
    ensures var s' := Step(s, fetch, delivered).state;
            Step(s', fetch, delivered).state == s'
  {
  }

  /** Repeating a step that announced a status, with the same answer, sends nothing and changes nothing. */
  lemma RepeatedStatusNotResent(s: State, fetch: Fetch, text: string, delivered: bool)
    requires Announces(fetch, text)
    ensures var s' := Step(s, fetch, true).state;
            Step(s', fetch, delivered) == StepResult(s', None)
  {
  }

  /** An answer whose `homeworks` list is empty changes nothing and sends nothing. */
  lemma StepNoHomeworks(s: State, fetch: Fetch, delivered: bool)
    requires NoHomeworks(fetch)
    ensures Step(s, fetch, delivered) == StepResult(s, None)
  {
  }

  /** An object answer without a `homeworks` key is only logged: it changes nothing and sends nothing. */
  lemma StepEmptyPayload(s: State, fetch: Fetch, delivered: bool)
    requires fetch.Fetched? && fetch.body.JObj? && !Has(fetch.body.fields, "homeworks")
    ensures Step(s, fetch, delivered) == StepResult(s, None)
  {
  }

  /**
   Any other error is handed to `send_message` as the exception object,
   whatever was sent before; the watermark stays, and the error becomes
   `previous_status` exactly when it was delivered.
   */
  lemma StepReportsError(s: State, fetch: Fetch, delivered: bool, e: Error)
    requires Fails(fetch, e) && !e.EmptyResponseApi?
    ensures Step(s, fetch, delivered).sent == Some(ErrorReport(e))
    ensures Step(s, fetch, delivered).state.timestamp == s.timestamp
    ensures delivered ==> Step(s, fetch, delivered).state.previous == Err(e)
    ensures !delivered ==> Step(s, fetch, delivered).state == s
  {
  }

  /** A response that is not an object is handed to `send_message` as the malformed-answer TypeError. */
  lemma StepNonObjectAnswer(s: State, body: Json, delivered: bool)
    requires !body.JObj?
    ensures Step(s, Fetched(body), delivered).sent == Some(ErrorReport(TypeError(MalformedText)))
  {
  }

  /**
   An example of `StepReportsError`: the unwrapped decode error of a body that
   is not JSON (see `Fetch`) is handed to `send_message` like any other error.
   */
  lemma UndecodableBodyIsReported(s: State, message: string, delivered: bool)
    ensures var e := Other("JSONDecodeError", message);
            && Step(s, FetchFailed(e), delivered).sent == Some(ErrorReport(e))
            && Step(s, FetchFailed(e), delivered).state.timestamp == s.timestamp
  {
  }

  /** After an error was delivered, a status text is always sent, even one delivered before. */
  lemma StatusResentAfterError(s: State, fetch: Fetch, delivered: bool, text: string)
    requires s.previous.Err? && Announces(fetch, text)
    ensures Step(s, fetch, delivered).sent == Some(StatusText(text))
  {
  }

  /** The same error outcome twice in a row is sent twice: errors are never deduplicated. */
  lemma ErrorReportedEveryCycle(s: State, fetch: Fetch, e: Error, delivered: bool)
    requires Fails(fetch, e) && !e.EmptyResponseApi?
    ensures var s' := Step(s, fetch, true).state;
            Step(s', fetch, delivered).sent == Some(ErrorReport(e))
  {
  }

  /** A new status of the most recent homework is always sent, whatever the remembered text was built from. */
  lemma StatusChangeIsSent(s: State, fetch: Fetch, delivered: bool, before: Json, text: string)
    requires ParseStatus(before).Success? && s.previous == Msg(ParseStatus(before).value)
    requires Announces(fetch, text)
    requires Get(before.fields, "status") != Get(CheckResponse(fetch.body).value[0].fields, "status")
    ensures Step(s, fetch, delivered).sent == Some(StatusText(text))
  {
    var record := CheckResponse(fetch.body).value[0];
    if ParseStatus(before).value == text {
      SameMessageSameRecord(before, record);
    }
    StepNewStatus(s, fetch, delivered, text);
  }

  /** A cycle of the loop: the fetch result and whether `send_message` would succeed. */
  datatype Cycle = Cycle(fetch: Fetch, delivered: bool)

  /** The state after a sequence of cycles and the notifications delivered along the way. */
  datatype RunResult = RunResult(state: State, deliveries: seq<Outgoing>)

  /** The notification one step delivered, if any. */
  function DeliveredBy(r: StepResult, delivered: bool): seq<Outgoing> {
    if delivered && r.sent.Some? then [r.sent.value] else []
  }

  /**
   Successive iterations of the loop. The state changes only through
   delivered notifications, and the watermark moves only when a status text
   was delivered.
   */
  function Run(s: State, cycles: seq<Cycle>): (r: RunResult)
    ensures r.state != s ==> |r.deliveries| > 0
    ensures r.state.timestamp != s.timestamp ==>
              exists i :: 0 <= i < |r.deliveries| && r.deliveries[i].StatusText?
    decreases |cycles|
  {
    if |cycles| == 0 then RunResult(s, [])
    else
      var first := Step(s, cycles[0].fetch, cycles[0].delivered);
      var rest := Run(first.state, cycles[1..]);
      var out := DeliveredBy(first, cycles[0].delivered);
      var all := out + rest.deliveries;
      assert rest.state.timestamp != s.timestamp ==> exists i :: 0 <= i < |all| && all[i].StatusText? by {
        if first.state.timestamp != s.timestamp {
          assert all[0].StatusText?;
        } else if rest.state.timestamp != s.timestamp {
          var i :| 0 <= i < |rest.deliveries| && rest.deliveries[i].StatusText?;
          assert all[|out| + i] == rest.deliveries[i];
        }
      }
      RunResult(rest.state, all)
  }

  /** Every cycle fetches an answer whose most recent record is announced with `text`. */
  predicate AllAnnounce(cycles: seq<Cycle>, text: string) {
    forall i :: 0 <= i < |cycles| ==> Announces(cycles[i].fetch, text)
  }

  /** Cycles that all announce `text` to a loop that already delivered it do nothing. */
  lemma {:induction false} AlreadyDeliveredStaysQuiet(s: State, cycles: seq<Cycle>, text: string)
    requires s.previous == Msg(text)
    requires AllAnnounce(cycles, text)
    ensures Run(s, cycles) == RunResult(s, [])
    decreases |cycles|
  {
    if |cycles| > 0 {
      StepDeduplicates(s, cycles[0].fetch, cycles[0].delivered, text);
      AlreadyDeliveredStaysQuiet(s, cycles[1..], text);
    }
  }

  /**
   While the answers keep announcing the same status text, it is delivered at
   most once, and not at all if the loop already remembers it.
   */
  lemma {:induction false} SameStatusDeliveredOnce(s: State, cycles: seq<Cycle>, text: string)
    requires AllAnnounce(cycles, text)
    ensures Run(s, cycles).deliveries == [] || Run(s, cycles).deliveries == [StatusText(text)]
    ensures s.previous == Msg(text) ==> Run(s, cycles).deliveries == []
    decreases |cycles|
  {
    if |cycles| > 0 {
      var c := cycles[0];
      var first := Step(s, c.fetch, c.delivered);
      if s.previous == Msg(text) {
        AlreadyDeliveredStaysQuiet(s, cycles, text);
      } else {
        StepNewStatus(s, c.fetch, c.delivered, text);
        SameStatusDeliveredOnce(first.state, cycles[1..], text);
        if c.delivered {
          AlreadyDeliveredStaysQuiet(first.state, cycles[1..], text);
        }
      }
    }
  }

  /**
   While the answers keep announcing the same status text, a failed send is
   retried in the next cycle, so once any cycle's send succeeds the text is
   what the loop remembers.
   */
  lemma {:induction false} DeliveredStatusIsRemembered(s: State, cycles: seq<Cycle>, text: string, k: nat)
    requires AllAnnounce(cycles, text)
    requires k < |cycles| && cycles[k].delivered
    ensures Run(s, cycles).state.previous == Msg(text)
    decreases k
  {
    var c := cycles[0];
    if s.previous == Msg(text) {
      AlreadyDeliveredStaysQuiet(s, cycles, text);
    } else {
      var first := Step(s, c.fetch, c.delivered);
      var rest := cycles[1..];
      assert Run(s, cycles).state == Run(first.state, rest).state;
      assert AllAnnounce(rest, text) by {
        forall i | 0 <= i < |rest| ensures Announces(rest[i].fetch, text) {
          assert rest[i] == cycles[i + 1];
        }
      }
      StepNewStatus(s, c.fetch, c.delivered, text);
      if k == 0 {
        assert first.state.previous == Msg(text);
        AlreadyDeliveredStaysQuiet(first.state, rest, text);
      } else {
        assert rest[k - 1] == cycles[k];
        DeliveredStatusIsRemembered(first.state, rest, text, k - 1);
      }
    }
  }

  /**
   The first iteration on the answer for "X" approved at 1000: the approval
   text is sent and, once delivered, the watermark becomes 1000.
   */
  lemma ApprovedAnswerFromStart()
    ensures var record := JObj([("homework_name", JStr("X")), ("status", JStr("approved"))]);
            var body := JObj([("homeworks", JArr([record])), ("current_date", JNum(1000))]);
            Step(Initial, Fetched(body), true)
            == StepResult(State(JNum(1000), Msg(StatusMessage("X", "approved"))),
                          Some(StatusText(StatusMessage("X", "approved"))))
  {
  }

  /** A record without `homework_name` is a parse error: it is reported, and the watermark stays. */
  lemma NamelessRecordIsReported(s: State, delivered: bool)
    ensures var body := JObj([("homeworks", JArr([JObj([("status", JStr("approved"))])]))]);
            && Step(s, Fetched(body), delivered).sent.Some?
            && Step(s, Fetched(body), delivered).sent.value.ErrorReport?
            && Step(s, Fetched(body), delivered).sent.value.error.ParseValue?
            && Step(s, Fetched(body), delivered).state.timestamp == s.timestamp
  {
  }
}
