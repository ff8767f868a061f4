/**
 The two checks the bot applies to every answer of the homework API:
 `check_response`, which extracts the list of homework records, and
 `parse_status`, which turns the most recent record into the notification
 text through the fixed verdict table.
 */
module Homework {
  import opened Wrappers
  import opened Json
  import opened Errors

  /** The verdict table: the three review statuses the API reports and the text each one is announced with. */
  const Verdicts: map<string, string> := map[
    "approved" := "Работа проверена: ревьюеру всё понравилось. Ура!",
    "reviewing" := "Работа взята на проверку ревьюером.",
    "rejected" := "Работа проверена: у ревьюера есть замечания."
  ]

  /** Text of the TypeError raised for an answer of the wrong shape. */
  const MalformedText: string := "Формат ответа API не соответствует."

  /** Text of the EmptyResponseApiException raised for an answer without `homeworks`. */
  const MissingHomeworksText: string := "Отсутствует ключ [\"homeworks\"] в ответе API."

  /** Everything a status notification says before the homework's name. */
  const StatusPrefix: string := "Изменился статус проверки работы \""

  /** A status the verdict table knows. */
  predicate KnownStatus(status: Json) {
    status.JStr? && status.s in Verdicts
  }

  /** The notification announcing that homework `name` now has status `status`. */
  function StatusMessage(name: string, status: string): string
    requires status in Verdicts
  {
    StatusPrefix + name + "\". " + Verdicts[status]
  }

  /** An answer as the API documents it: an object whose `homeworks` field holds the records. */
  function Answer(homeworks: seq<Json>, others: seq<(string, Json)>): Json {
    JObj([("homeworks", JArr(homeworks))] + others)
  }

  /**
   check_response: the answer must be an object (else TypeError), must have a
   `homeworks` key (else EmptyResponseApiException) and that key must hold a
   list (else TypeError); the list is returned as it is.
   */
  function CheckResponse(response: Json): (r: Result<seq<Json>, Error>)
    ensures !response.JObj? ==> r == Failure(TypeError(MalformedText))
    ensures response.JObj? && !Has(response.fields, "homeworks") ==>
              r == Failure(EmptyResponseApi(MissingHomeworksText))
    ensures (response.JObj? && Has(response.fields, "homeworks")
             && !Get(response.fields, "homeworks").JArr?) ==> r == Failure(TypeError(MalformedText))
    ensures r.Success? <==> response.JObj? && Get(response.fields, "homeworks").JArr?
    ensures r.Success? ==> JArr(r.value) == Get(response.fields, "homeworks")
  {
    if !response.JObj? then Failure(TypeError(MalformedText))
    else if !Has(response.fields, "homeworks") then Failure(EmptyResponseApi(MissingHomeworksText))
    else
      var homeworks := Get(response.fields, "homeworks");
      if !homeworks.JArr? then Failure(TypeError(MalformedText))
      else Success(homeworks.elems)
  }

  /**
   parse_status: the record must be a dictionary (its `.get` is called first,
   so anything else raises AttributeError), must have a `homework_name` key
   (checked before the status) and its `status` must be a key of the verdict
   table; looking a list or a dictionary up in the table raises TypeError, any
   other unknown status raises ParseValueException.
   */
  function ParseStatus(homework: Json): (r: Result<string, Error>)
    ensures !homework.JObj? ==>
              r == Failure(AttributeError("'" + TypeName(homework) + "' object has no attribute 'get'"))
    ensures homework.JObj? && !Has(homework.fields, "homework_name") ==>
              r == Failure(ParseValue("Неожиданный ответ: " + Str(homework) + "."))
    ensures (homework.JObj? && Has(homework.fields, "homework_name")
             && var status := Get(homework.fields, "status");
                (status.JArr? || status.JObj?)) ==>
              r == Failure(TypeError("unhashable type: '" + TypeName(Get(homework.fields, "status")) + "'"))
    ensures (homework.JObj? && Has(homework.fields, "homework_name")
             && var status := Get(homework.fields, "status");
                !status.JArr? && !status.JObj? && !KnownStatus(status)) ==>
              r == Failure(ParseValue("Неожиданный статус в ответе: " + Str(Get(homework.fields, "status")) + "."))
    ensures r.Success? <==>
              homework.JObj? && Has(homework.fields, "homework_name")
              && KnownStatus(Get(homework.fields, "status"))
    ensures r.Success? ==>
              r.value == StatusMessage(Str(Get(homework.fields, "homework_name")),
                                       Get(homework.fields, "status").s)
    ensures r.Failure? ==> r.error.AttributeError? || r.error.ParseValue? || r.error.TypeError?
  {
    if !homework.JObj? then
      Failure(AttributeError("'" + TypeName(homework) + "' object has no attribute 'get'"))
    else
      var status := Get(homework.fields, "status");
      var name := Get(homework.fields, "homework_name");
      if !Has(homework.fields, "homework_name") then
        Failure(ParseValue("Неожиданный ответ: " + Str(homework) + "."))
      else if status.JArr? || status.JObj? then
        Failure(TypeError("unhashable type: '" + TypeName(status) + "'"))
      else if !KnownStatus(status) then
        Failure(ParseValue("Неожиданный статус в ответе: " + Str(status) + "."))
      else
        Success(StatusPrefix + Str(name) + "\". " + Verdicts[status.s])
  }

  /** What a notification says after the name: the closing quote and the verdict. */
  function Tail(status: string): string
    requires status in Verdicts
  {
    "\". " + Verdicts[status]
  }

  /** Reads the name back out of `msg` if it is the notification for `status`. */
  function ReadAs(msg: string, status: string): Option<string>
    requires status in Verdicts
  {
    var p := |StatusPrefix|;
    var t := |Tail(status)|;
    if p + t <= |msg| && msg[..p] == StatusPrefix && msg[|msg| - t..] == Tail(status)
    then Some(msg[p..|msg| - t])
    else None
  }

  /** Reads a notification back into the homework name and the status it announces. */
  function ReadMessage(msg: string): Option<(string, string)> {
    match ReadAs(msg, "approved")
    case Some(name) => Some((name, "approved"))
    case None =>
      match ReadAs(msg, "reviewing")
      case Some(name) => Some((name, "reviewing"))
      case None =>
        match ReadAs(msg, "rejected")
        case Some(name) => Some((name, "rejected"))
        case None => None
  }

  /** The last two characters of the three tails differ, so no tail ends another one. */
  lemma TailsEndApart(msg: string, s1: string, s2: string)
    requires s1 in Verdicts && s2 in Verdicts && s1 != s2
    requires |Tail(s1)| <= |msg| && msg[|msg| - |Tail(s1)|..] == Tail(s1)
    ensures !(|Tail(s2)| <= |msg| && msg[|msg| - |Tail(s2)|..] == Tail(s2))
  {
    var t1 := Tail(s1);
    var n := |msg|;
    assert msg[n - 1] == msg[n - |t1|..][|t1| - 1] == t1[|t1| - 1];
    assert msg[n - 2] == msg[n - |t1|..][|t1| - 2] == t1[|t1| - 2];
  }

  /** A notification reads back, as a notification for its own status, to the name it was built with. */
  lemma ReadAsOwnStatus(name: string, status: string)
    requires status in Verdicts
    ensures ReadAs(StatusMessage(name, status), status) == Some(name)
  {
    var msg := StatusMessage(name, status);
    var p := |StatusPrefix|;
    var t := |Tail(status)|;
    assert msg == StatusPrefix + name + Tail(status);
    assert msg[..p] == StatusPrefix;
    assert msg[|msg| - t..] == Tail(status);
    assert msg[p..|msg| - t] == name;
  }

  /** The notification text determines the name and the status it was built from. */
  lemma ReadStatusMessage(name: string, status: string)
    requires status in Verdicts
    ensures ReadMessage(StatusMessage(name, status)) == Some((name, status))
  {
    var msg := StatusMessage(name, status);
    ReadAsOwnStatus(name, status);
    if status != "approved" {
      TailsEndApart(msg, status, "approved");
    }
    if status != "reviewing" {
      TailsEndApart(msg, status, "reviewing");
    }
  }

  /** Two records announced with the same text have the same name text and the same status. */
  lemma SameMessageSameRecord(h1: Json, h2: Json)
    requires ParseStatus(h1).Success? && ParseStatus(h2).Success?
    requires ParseStatus(h1).value == ParseStatus(h2).value
    ensures Str(Get(h1.fields, "homework_name")) == Str(Get(h2.fields, "homework_name"))
    ensures Get(h1.fields, "status") == Get(h2.fields, "status")
  {
    ReadStatusMessage(Str(Get(h1.fields, "homework_name")), Get(h1.fields, "status").s);
    ReadStatusMessage(Str(Get(h2.fields, "homework_name")), Get(h2.fields, "status").s);
  }

  /** An object whose `homeworks` field holds a list passes the check with exactly that list. */
  lemma CheckAnswer(fields: seq<(string, Json)>, homeworks: seq<Json>)
    requires DistinctKeys(fields) && Get(fields, "homeworks") == JArr(homeworks)
    ensures CheckResponse(JObj(fields)) == Success(homeworks)
  {
  }

  /** An object without `homeworks` is an empty payload, while an empty `homeworks` list is a valid answer. */
  lemma EmptyPayloadIsNotEmptyList(others: seq<(string, Json)>)
    requires !Has(others, "homeworks")
    ensures CheckResponse(JObj(others)) == Failure(EmptyResponseApi(MissingHomeworksText))
    ensures CheckResponse(Answer([], others)) == Success([])
  {
  }
}
