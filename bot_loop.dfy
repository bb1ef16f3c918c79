/** The driver of homework.py: `main` checks the secrets once, reads the clock
    once into `current_timestamp`, and then repeats a cycle that fetches the
    answer for that cursor, validates it, and sends one chat message per
    homework record, or one failure report when a step raises. */
module BotLoop {
  import opened Wrappers
  import opened PyData
  import opened Homework

  /** What get_api_answer gives back for one request: the decoded answer, or
      the exception it raised. */
  datatype FetchOutcome = Answer(response: Value) | Raised(error: Error)

  /** The homework API as the loop sees it: the outcome of the request made in
      a given cycle with a given `from_date` cursor. */
  type Api = (nat, int) -> FetchOutcome

  const FailurePrefix := "Сбой в работе программы: "
  const MissingTokensMessage := "Проверьте обязательные переменные окружения."

  /** The report the `except` branch sends for `e`. */
  function FailureMessage(e: Error): string
  {
    FailurePrefix + ErrorText(e)
  }

  // ---------------------------------------------------------------------
  // What one cycle sends
  // ---------------------------------------------------------------------

  /** How the `for` loop over the homework list ends: the notifications it
      sent, and the exception parse_status raised, if one did. */
  datatype LoopOutcome = LoopOutcome(sent: seq<string>, raised: Option<Error>)

  /** What parse_status makes of each record, in list order. parse_status
      only reads its record, so computing every result up front changes
      nothing the loop can observe. */
  function ParseAll(homeworks: seq<Value>): seq<Result<string, Error>>
  {
    seq(|homeworks|, j requires 0 <= j < |homeworks| => ParseStatus(homeworks[j]))
  }

  /** The `for` loop run from record `i` on, given each record's parse
      result: the notifications in list order, until a record's parse raises;
      the rest of the list is skipped. */
  function AnnounceFrom(results: seq<Result<string, Error>>, i: nat): LoopOutcome
    requires i <= |results|
    decreases |results| - i
  {
    if i == |results| then LoopOutcome([], None)
    else match results[i]
      case Err(e) => LoopOutcome([], Some(e))
      case Ok(message) =>
        var rest := AnnounceFrom(results, i + 1);
        LoopOutcome([message] + rest.sent, rest.raised)
  }

  /** The messages of one cycle after the loop: its notifications, then the
      `except` branch's report when the loop raised. */
  function Reported(outcome: LoopOutcome): seq<string>
  {
    outcome.sent + if outcome.raised.Some? then [FailureMessage(outcome.raised.value)] else []
  }

  /** The messages one pass of the `try` block sends, keeping the source's
      test `len(response) > 0` (see NoChangeBranchUnreachable). */
  function CycleMessages(fetched: FetchOutcome): seq<string>
  {
    match fetched
    case Raised(e) => [FailureMessage(e)]
    case Answer(response) =>
      match CheckResponse(response)
      case Err(e) => [FailureMessage(e)]
      case Ok(homeworks) =>
        if |response.entries| > 0 then Reported(AnnounceFrom(ParseAll(homeworks), 0)) else []
  }

  /** The messages of the first `cycles` cycles when every request carries
      `cursor` as its `from_date`. */
  function SessionMessages(api: Api, cursor: int, cycles: nat): seq<string>
    decreases cycles
  {
    if cycles == 0 then []
    else SessionMessages(api, cursor, cycles - 1) + CycleMessages(api(cycles - 1, cursor))
  }

  /** `messages` sent `n` times over. */
  function Repeat(messages: seq<string>, n: nat): seq<string>
    decreases n
  {
    if n == 0 then [] else Repeat(messages, n - 1) + messages
  }

  /** When the first `k` records parse and record `k` (if any) does not, the
      loop sends exactly the notifications of records 0..k-1, in order, and
      then raises record `k`'s error, which the cycle reports once, last. */
  lemma LoopStopsAtFirstFailure(results: seq<Result<string, Error>>, k: nat)
    requires k <= |results|
    requires forall j :: 0 <= j < k ==> results[j].Ok?
    requires k < |results| ==> results[k].Err?
    ensures |AnnounceFrom(results, 0).sent| == k
    ensures forall j :: 0 <= j < k ==> AnnounceFrom(results, 0).sent[j] == results[j].value
    ensures AnnounceFrom(results, 0).raised == if k < |results| then Some(results[k].error) else None
  {
    SuffixStopsAtFirstFailure(results, 0, k);
  }

  lemma {:induction false} SuffixStopsAtFirstFailure(results: seq<Result<string, Error>>, i: nat, k: nat)
    requires i <= k <= |results|
    requires forall j :: i <= j < k ==> results[j].Ok?
    requires k < |results| ==> results[k].Err?
    ensures |AnnounceFrom(results, i).sent| == k - i
    ensures forall j :: i <= j < k ==> AnnounceFrom(results, i).sent[j - i] == results[j].value
    ensures AnnounceFrom(results, i).raised == if k < |results| then Some(results[k].error) else None
    decreases k - i
  {
    if i < k {
      SuffixStopsAtFirstFailure(results, i + 1, k);
      var rest := AnnounceFrom(results, i + 1).sent;
      assert AnnounceFrom(results, i).sent == [results[i].value] + rest;
      forall j | i + 1 <= j < k
        ensures AnnounceFrom(results, i).sent[j - i] == results[j].value
      {
        assert AnnounceFrom(results, i).sent[j - i] == rest[j - (i + 1)];
      }
    }
  }

  /** A failure report never reads back as a status notification, so the chat
      tells the two kinds of message apart. */
  lemma FailureIsNotNotification(e: Error)
    ensures ReadNotification(FailureMessage(e)) == None
  {
    var m := FailureMessage(e);
    assert m[0] == 'С' != Lead[0];
    if |Lead| <= |m| {
      assert m[..|Lead|][0] == m[0];
      assert m[..|Lead|] != Lead;
    }
  }

  /** An answer that passes check_response always has a key, so the "no
      change" branch of main is never taken: the cycle sends the loop's
      messages, and nothing at all for an empty homework list. */
  lemma NoChangeBranchUnreachable(response: Value)
    requires CheckResponse(response).Ok?
    ensures CycleMessages(Answer(response)) ==
              Reported(AnnounceFrom(ParseAll(CheckResponse(response).value), 0))
    ensures CheckResponse(response).value == [] ==> CycleMessages(Answer(response)) == []
  {
    CheckedResponseIsNonEmpty(response);
  }

  /** A request that raises, or an answer check_response rejects, costs the
      cycle exactly one message: the failure report. */
  lemma FailedFetchReportsOnce(fetched: FetchOutcome)
    requires fetched.Raised? || CheckResponse(fetched.response).Err?
    ensures CycleMessages(fetched) ==
              [FailureMessage(if fetched.Raised? then fetched.error else CheckResponse(fetched.response).error)]
  {
  }

  /** A record without a `status` key is reported with the KeyError's text
      in single quotes. */
  lemma MissingStatusReport()
    ensures ErrorText(KeyError(MissingStatusMessage)) == "'" + MissingStatusMessage + "'"
  {
    KeyErrorTextIsQuoted(MissingStatusMessage);
  }

  /** The cursor is never advanced: when the API keeps giving the same
      outcome for that cursor, every cycle sends the same messages again. */
  lemma {:induction false} FrozenCursorRepeats(api: Api, cursor: int, cycles: nat)
    requires forall cycle: nat :: api(cycle, cursor) == api(0, cursor)
    ensures SessionMessages(api, cursor, cycles) == Repeat(CycleMessages(api(0, cursor)), cycles)
  {
    if cycles > 0 {
      FrozenCursorRepeats(api, cursor, cycles - 1);
    }
  }

  // ---------------------------------------------------------------------
  // main
  // ---------------------------------------------------------------------

  /** The `for` loop of main over the checked homework list: send each
      record's notification in turn until parse_status raises, and hand that
      exception on. */
  method SendNotifications(homework: seq<Value>, chat: seq<string>)
    returns (after: seq<string>, raised: Option<Error>)
    ensures after == chat + AnnounceFrom(ParseAll(homework), 0).sent
    ensures raised == AnnounceFrom(ParseAll(homework), 0).raised
  {
    ghost var results := ParseAll(homework);
    after := chat;
    var i := 0;
    while i < |homework|
      invariant 0 <= i <= |homework|
      invariant after + AnnounceFrom(results, i).sent == chat + AnnounceFrom(results, 0).sent
      invariant AnnounceFrom(results, i).raised == AnnounceFrom(results, 0).raised
    {
      var status := ParseStatus(homework[i]);
      assert status == results[i];
      if status.Err? {
        return after, Some(status.error);
      }
      // parse_status never returns None, so the message is always sent.
      after := after + [status.value];
      i := i + 1;
    }
    raised := None;
  }

  /** One pass of the `try` block of main's loop, with `except` around it:
      fetch for the cursor, validate, and send; `chat` is what the chat has
      received so far. */
  method PollOnce(api: Api, cycle: nat, currentTimestamp: int, chat: seq<string>)
    returns (after: seq<string>)
    ensures after == chat + CycleMessages(api(cycle, currentTimestamp))
  {
    after := chat;
    var fetched := api(cycle, currentTimestamp);
    if fetched.Raised? {
      after := after + [FailureMessage(fetched.error)];
      return;
    }
    var response := fetched.response;
    var checked := CheckResponse(response);
    if checked.Err? {
      after := after + [FailureMessage(checked.error)];
      return;
    }
    var homework := checked.value;
    if |response.entries| > 0 {
      var raised;
      after, raised := SendNotifications(homework, after);
      if raised.Some? {
        after := after + [FailureMessage(raised.value)];
      }
    }
  }

  /** Why main stopped before its polling loop: the Telegram library refused
      to build the bot, or the secrets check failed and main raised SystemExit
      with its message. */
  datatype Stop = BotRejected | SystemExit(message: string)

  /** main, run for its first `cycles` cycles. The bot is built first, and
      `botBuilt` says whether the Telegram library accepted TELEGRAM_TOKEN;
      then no cycle runs unless all three secrets are set, and every cycle
      requests the answers from `now`, the clock reading taken once at
      startup. */
  method RunBot(env: Env, botBuilt: bool, now: int, api: Api, cycles: nat)
    returns (stop: Option<Stop>, chat: seq<string>)
    ensures !botBuilt ==> stop == Some(BotRejected) && chat == []
    ensures botBuilt && !CheckTokens(env) ==>
              stop == Some(SystemExit(MissingTokensMessage)) && chat == []
    ensures stop.None? <==> botBuilt && CheckTokens(env)
    ensures stop.None? ==> chat == SessionMessages(api, now, cycles)
  {
    chat := [];
    if !botBuilt {
      return Some(BotRejected), chat;
    }
    var currentTimestamp := now;
    if !CheckTokens(env) {
      return Some(SystemExit(MissingTokensMessage)), chat;
    }
    var cycle := 0;
    while cycle < cycles
      invariant cycle <= cycles
      invariant chat == SessionMessages(api, currentTimestamp, cycle)
    {
      chat := PollOnce(api, cycle, currentTimestamp, chat);
      cycle := cycle + 1;
    }
    stop := None;
  }
}
