/** The validation and formatting layer of homework.py: the fixed status table,
    the check of an API answer, the parse of one homework record into a
    notification, and the check that the three secrets are configured. */
module Homework {
  import opened Wrappers
  import opened PyData

  /** HOMEWORK_STATUSES: review status code to the verdict shown in the chat. */
  const HomeworkStatuses: map<string, string> := map[
    "approved" := "Работа проверена: ревьюеру всё понравилось. Ура!",
    "reviewing" := "Работа взята на проверку ревьюером.",
    "rejected" := "Работа проверена: у ревьюера есть замечания."
  ]

  const HomeworksKey := "homeworks"
  const StatusKey := "status"
  const NameKey := "homework_name"

  const ResponseNotDictMessage := "Ответ API не словарь."
  const NoHomeworksMessage := "Задания не обнаружены"
  const RecordNotDictMessage := "Входной параметр не словарь."
  const MissingStatusMessage := "Ключа \"status\" нет в ответе"
  const MissingNameMessage := "Ключа \"homework_name\" нет в ответе"
  const NullStatusMessage := "Пустое значение status."
  const NullNameMessage := "Пустое значение homework_name."
  const UnknownStatusMessage := "Статуса домашней работы нет в словаре."
  const UnhashableListMessage := "unhashable type: 'list'"
  const UnhashableDictMessage := "unhashable type: 'dict'"

  // ---------------------------------------------------------------------
  // check_response
  // ---------------------------------------------------------------------

  /** check_response: the answer must be a dict whose `homeworks` entry is a
      list; that list is returned as it is, empty or not. The subscript
      `response['homeworks']` raises KeyError('homeworks') when the key is
      absent, and the test for None after the list test can never fire. */
  function CheckResponse(response: Value): (r: Result<seq<Value>, Error>)
    ensures !response.Dict? ==> r == Err(TypeError(ResponseNotDictMessage))
    ensures response.Dict? && Get(response.entries, HomeworksKey).None? ==>
              r == Err(KeyError(HomeworksKey))
    ensures response.Dict? && Get(response.entries, HomeworksKey).Some? &&
            !Get(response.entries, HomeworksKey).value.List? ==>
              r == Err(TypeError(ResponseNotDictMessage))
    ensures r.Ok? <==> response.Dict? && Get(response.entries, HomeworksKey).Some? &&
                       Get(response.entries, HomeworksKey).value.List?
    ensures r.Ok? ==> Get(response.entries, HomeworksKey) == Some(List(r.value))
    ensures r != Err(Exception(NoHomeworksMessage))
  {
    if !response.Dict? then Err(TypeError(ResponseNotDictMessage))
    else match Get(response.entries, HomeworksKey)
      case None => Err(KeyError(HomeworksKey))
      case Some(homework) =>
        if !homework.List? then Err(TypeError(ResponseNotDictMessage))
        else if homework == Null then Err(Exception(NoHomeworksMessage))
        else Ok(homework.items)
  }

  /** Whatever else the answer holds, its `homeworks` list comes back unchanged,
      including the empty list. */
  lemma {:induction false} CheckResponseReturnsHomeworks(
    before: seq<(string, Value)>, homeworks: seq<Value>, after: seq<(string, Value)>)
    requires forall k :: 0 <= k < |before| ==> before[k].0 != HomeworksKey
    ensures CheckResponse(Dict(before + [(HomeworksKey, List(homeworks))] + after)) == Ok(homeworks)
  {
    var rest := [(HomeworksKey, List(homeworks))] + after;
    assert before + [(HomeworksKey, List(homeworks))] + after == before + rest;
    GetSkipsOtherKeys(before, rest, HomeworksKey);
  }

  /** An answer that passes check_response is a dict with at least one key, so
      the `len(response) > 0` test of the main loop always holds. */
  lemma CheckedResponseIsNonEmpty(response: Value)
    requires CheckResponse(response).Ok?
    ensures response.Dict? && |response.entries| > 0
  {
    var r := CheckResponse(response);
    assert Get(response.entries, HomeworksKey) == Some(List(r.value));
  }

  // ---------------------------------------------------------------------
  // parse_status
  // ---------------------------------------------------------------------

  const Lead := "Изменился статус проверки работы \""

  function Tail(verdict: string): string
  {
    "\" : " + verdict
  }

  /** The chat text announcing that `name` now has `verdict`. */
  function Notification(name: string, verdict: string): string
  {
    Lead + name + Tail(verdict)
  }

  /** `status in HOMEWORK_STATUSES`: a list or a dict cannot be hashed, so the
      membership test itself raises TypeError for them. */
  function InStatusTable(status: Value): (r: Result<bool, Error>)
    ensures r.Ok? <==> !status.List? && !status.Dict?
    ensures r == Ok(true) <==> status.Str? && status.s in HomeworkStatuses
    ensures status.List? ==> r == Err(TypeError(UnhashableListMessage))
    ensures status.Dict? ==> r == Err(TypeError(UnhashableDictMessage))
  {
    match status
    case List(_) => Err(TypeError(UnhashableListMessage))
    case Dict(_) => Err(TypeError(UnhashableDictMessage))
    case Str(s) => Ok(s in HomeworkStatuses)
    case _ => Ok(false)
  }

  /** A record the bot can announce: a dict with a known status and a name
      that is not null. */
  predicate ValidRecord(homework: Value)
  {
    && homework.Dict?
    && Get(homework.entries, StatusKey).Some?
    && Get(homework.entries, StatusKey).value.Str?
    && Get(homework.entries, StatusKey).value.s in HomeworkStatuses
    && Get(homework.entries, NameKey).Some?
    && Get(homework.entries, NameKey).value != Null
  }

  /** parse_status: a message exactly for the valid records, and for the others
      the first failing test in this order: not a dict, no `status` key, no
      `homework_name` key, null status, null name, unhashable status, unknown
      status. */
  function ParseStatus(homework: Value): (r: Result<string, Error>)
    ensures r.Ok? <==> ValidRecord(homework)
    ensures r.Ok? ==>
              r.value == Notification(PyStr(Get(homework.entries, NameKey).value),
                                      HomeworkStatuses[Get(homework.entries, StatusKey).value.s])
    ensures !homework.Dict? ==> r == Err(KeyError(RecordNotDictMessage))
    ensures homework.Dict? && Get(homework.entries, StatusKey).None? ==>
              r == Err(KeyError(MissingStatusMessage))
    ensures homework.Dict? && Get(homework.entries, StatusKey).Some? &&
            Get(homework.entries, NameKey).None? ==>
              r == Err(KeyError(MissingNameMessage))
    ensures homework.Dict? && Get(homework.entries, StatusKey) == Some(Null) &&
            Get(homework.entries, NameKey).Some? ==>
              r == Err(Exception(NullStatusMessage))
    ensures homework.Dict? && Get(homework.entries, StatusKey).Some? &&
            Get(homework.entries, StatusKey) != Some(Null) &&
            Get(homework.entries, NameKey) == Some(Null) ==>
              r == Err(Exception(NullNameMessage))
    ensures homework.Dict? && Get(homework.entries, StatusKey).Some? &&
            Get(homework.entries, StatusKey).value.List? &&
            Get(homework.entries, NameKey).Some? && Get(homework.entries, NameKey).value != Null ==>
              r == Err(TypeError(UnhashableListMessage))
    ensures homework.Dict? && Get(homework.entries, StatusKey).Some? &&
            Get(homework.entries, StatusKey).value.Dict? &&
            Get(homework.entries, NameKey).Some? && Get(homework.entries, NameKey).value != Null ==>
              r == Err(TypeError(UnhashableDictMessage))
    ensures r == Err(Exception(UnknownStatusMessage)) <==>
              && homework.Dict?
              && Get(homework.entries, StatusKey).Some?
              && Get(homework.entries, NameKey).Some?
              && Get(homework.entries, StatusKey).value != Null
              && Get(homework.entries, NameKey).value != Null
              && !Get(homework.entries, StatusKey).value.List?
              && !Get(homework.entries, StatusKey).value.Dict?
              && !ValidRecord(homework)
  {
    if !homework.Dict? then Err(KeyError(RecordNotDictMessage))
    else
      var status := Get(homework.entries, StatusKey);
      if status.None? then Err(KeyError(MissingStatusMessage))
      else
        var name := Get(homework.entries, NameKey);
        if name.None? then Err(KeyError(MissingNameMessage))
        else if status.value == Null then Err(Exception(NullStatusMessage))
        else if name.value == Null then Err(Exception(NullNameMessage))
        else match InStatusTable(status.value)
          case Err(e) => Err(e)
          case Ok(known) =>
            if known then Ok(Notification(PyStr(name.value), HomeworkStatuses[status.value.s]))
            else Err(Exception(UnknownStatusMessage))
  }

  /** Reads a notification back: the shown name and the status code whose
      verdict ends the text, trying the codes in table order. */
  function ReadNotification(message: string): Option<(string, string)>
  {
    if Frames(message, "approved") then Some((Between(message, "approved"), "approved"))
    else if Frames(message, "reviewing") then Some((Between(message, "reviewing"), "reviewing"))
    else if Frames(message, "rejected") then Some((Between(message, "rejected"), "rejected"))
    else None
  }

  predicate Frames(message: string, status: string)
    requires status in HomeworkStatuses
  {
    var tail := Tail(HomeworkStatuses[status]);
    && |Lead| + |tail| <= |message|
    && message[..|Lead|] == Lead
    && message[|message| - |tail|..] == tail
  }

  function Between(message: string, status: string): string
    requires status in HomeworkStatuses
    requires Frames(message, status)
  {
    message[|Lead|..|message| - |Tail(HomeworkStatuses[status])|]
  }

  /** Reading back a notification gives exactly the name and the status it
      was written from. */
  lemma NotificationReadsBack(name: string, status: string)
    requires status in HomeworkStatuses
    ensures ReadNotification(Notification(name, HomeworkStatuses[status])) == Some((name, status))
  {
    var v := HomeworkStatuses[status];
    var m := Notification(name, v);
    assert m[..|Lead|] == Lead;
    assert m[|m| - |Tail(v)|..] == Tail(v);
    assert m[|Lead|..|m| - |Tail(v)|] == name;
    if status != "approved" {
      // An approved verdict ends in '!', the other two in '.'.
      assert m[|m| - 1] == v[|v| - 1] == '.';
      FramedEndsWithTail(m, "approved", 1);
      if status == "rejected" {
        // "…ревьюером." and "…замечания." differ in the second-to-last character.
        assert m[|m| - 2] == v[|v| - 2] == 'я';
        FramedEndsWithTail(m, "reviewing", 2);
      }
    }
  }

  /** Whatever reads back as a name and a status is the notification of that
      name and status. */
  lemma ReadNotificationInverts(message: string)
    ensures ReadNotification(message).Some? ==>
              var (name, status) := ReadNotification(message).value;
              status in HomeworkStatuses && message == Notification(name, HomeworkStatuses[status])
  {
    if ReadNotification(message).Some? {
      var status := ReadNotification(message).value.1;
      var t := Tail(HomeworkStatuses[status]);
      assert message == message[..|Lead|] + message[|Lead|..|message| - |t|] + message[|message| - |t|..];
    }
  }

  /** A text framed by a status's tail ends with that tail. */
  lemma FramedEndsWithTail(message: string, status: string, j: nat)
    requires status in HomeworkStatuses
    requires 0 < j <= |Tail(HomeworkStatuses[status])|
    ensures Frames(message, status) ==>
              message[|message| - j] == Tail(HomeworkStatuses[status])[|Tail(HomeworkStatuses[status])| - j]
  {
    var tail := Tail(HomeworkStatuses[status]);
    if Frames(message, status) {
      assert message[|message| - |tail|..][|tail| - j] == message[|message| - j];
    }
  }

  /** Two valid records give the same notification exactly when they show the
      same name text and carry the same status. */
  lemma ParseStatusIdentifiesRecord(a: Value, b: Value)
    requires ValidRecord(a) && ValidRecord(b)
    ensures ParseStatus(a) == ParseStatus(b) <==>
              && PyStr(Get(a.entries, NameKey).value) == PyStr(Get(b.entries, NameKey).value)
              && Get(a.entries, StatusKey) == Get(b.entries, StatusKey)
  {
    var na, sa := PyStr(Get(a.entries, NameKey).value), Get(a.entries, StatusKey).value.s;
    var nb, sb := PyStr(Get(b.entries, NameKey).value), Get(b.entries, StatusKey).value.s;
    NotificationReadsBack(na, sa);
    NotificationReadsBack(nb, sb);
  }

  /** The well-formed record {"homework_name": "hw1", "status": "approved"}
      is announced with the approved verdict. */
  lemma ApprovedRecordExample()
    ensures ParseStatus(Dict([(NameKey, Str("hw1")), (StatusKey, Str("approved"))])) ==
            Ok(Notification("hw1", "Работа проверена: ревьюеру всё понравилось. Ура!"))
  {
    var record := Dict([(NameKey, Str("hw1")), (StatusKey, Str("approved"))]);
    assert Get(record.entries, NameKey) == Some(Str("hw1"));
    assert Get(record.entries, StatusKey) == Some(Str("approved"));
  }

  // ---------------------------------------------------------------------
  // check_tokens
  // ---------------------------------------------------------------------

  /** The process environment: variable name to value. */
  type Env = map<string, string>

  const RequiredVariables: set<string> := {"PRAKTICUM_TOKEN", "TELEGRAM_TOKEN", "TELEGRAM_CHAT_ID"}

  /** os.getenv(name) */
  function Getenv(env: Env, name: string): Option<string>
  {
    if name in env then Some(env[name]) else None
  }

  /** check_tokens: false as soon as one of the three variables is unset; an
      empty value counts as set. */
  function CheckTokens(env: Env): (ok: bool)
    ensures ok <==> RequiredVariables <= env.Keys
  {
    !(Getenv(env, "PRAKTICUM_TOKEN").None? || Getenv(env, "TELEGRAM_TOKEN").None? ||
      Getenv(env, "TELEGRAM_CHAT_ID").None?)
  }

  /** Removing any non-empty subset of the three variables fails the check;
      keeping all three passes it whatever their values. */
  lemma CheckTokensMissingSubset(env: Env, missing: set<string>)
    requires missing <= RequiredVariables
    ensures CheckTokens(env - missing) <==> missing == {} && RequiredVariables <= env.Keys
  {
    if missing != {} {
      var x :| x in missing;
      assert x !in (env - missing).Keys;
    }
  }
}
