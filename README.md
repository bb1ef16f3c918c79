# Homework status bot: a Dafny model

homework.py is a Telegram bot that polls the Yandex Practicum homework API and
tells a chat when the review status of a homework changes. This project models
the bot's decision logic and proves properties about it:

- the status table `HOMEWORK_STATUSES`;
- `check_response`, which validates the decoded API answer;
- `parse_status`, which turns one homework record into a chat message or
  raises an exception;
- `check_tokens`, which checks that the three secrets are set;
- `main`'s polling cycle, run for a bounded number of cycles. The network and
  the clock are inputs.

Files:

- `wrappers.dfy` defines `Option` and `Result`.
- `py_data.dfy` (module `PyData`) models decoded JSON values as Python sees
  them:
  - dict lookup (a dict's keys are taken to be distinct; see "## Left out");
  - the three exception kinds the core raises;
  - the text `str()` gives an exception, a string or any other value.
    `str(KeyError(k))` is `repr(k)`, so a KeyError's message is shown quoted.
- `homework.dfy` (module `Homework`) holds the status table, the validators,
  the notification format and its inverse `ReadNotification`, and
  `check_tokens`.
- `bot_loop.dfy` (module `BotLoop`) holds `main` as imperative methods over
  local state:
  - `SendNotifications` is the `for` loop over the homework list;
  - `PollOnce` is one `try`/`except` pass;
  - `RunBot` is the bot construction and the start-up check, followed by
    the polling loop.

  Each method is proved against a specification function
  (`AnnounceFrom`, `CycleMessages`, `SessionMessages`). The lemmas next to
  them state what those functions guarantee.

What the code does that a reader might not expect:

- `check_tokens` tests only that each variable is set, so an empty string
  counts as present.
- `current_timestamp` is read once and never advanced, so every request asks
  for the same `from_date`, and unchanged answers are announced again in
  every cycle (`FrozenCursorRepeats`).
- `check_response` returns the whole list, including an empty one, so an
  empty list sends nothing.
- The `len(response) > 0` test in `main` always holds after
  `check_response` succeeds, so the "no changes" branch is never taken
  (`NoChangeBranchUnreachable`).
- A status that is a list or a dict cannot be looked up in the status table
  and raises TypeError ("unhashable type: 'list'" or "... 'dict'"), after
  the null checks and before the unknown-status test.
- A record that is not a dict raises KeyError, not TypeError. The failure
  report therefore shows that message in quotes.

## Model

| member | source | states |
|---|---|---|
| Homework.CheckResponse | homework.py:71-84 | not a dict gives TypeError; a missing `homeworks` key gives KeyError('homeworks'); a non-list value gives TypeError; success holds exactly when the answer is a dict whose `homeworks` value is a list, and then that list is returned; the "no homeworks" exception is never raised |
| Homework.CheckResponseReturnsHomeworks | homework.py:75-84 | for any answer whose first `homeworks` entry is a list, that list is returned unchanged, including an empty one |
| Homework.CheckedResponseIsNonEmpty | homework.py:73-84 | an answer that passes check_response is a dict with at least one key |
| Homework.InStatusTable | homework.py:102 | the membership test `status in HOMEWORK_STATUSES` succeeds exactly when the status is hashable (not a list or dict), raising TypeError "unhashable type: 'list'" or "unhashable type: 'dict'" otherwise, and is true exactly when the status is one of the three known strings |
| Homework.ParseStatus | homework.py:87-112 | success holds exactly when the record is a dict whose status is a known string and whose name is present and not None, and the message then names `str(name)` and that status's verdict; each error case is stated with its precedence: not a dict, then missing status, then missing name, then None status, then None name, then TypeError "unhashable type" for a list or dict status; an unknown status raises its exception exactly when all checks before it pass |
| Homework.NotificationReadsBack | homework.py:102-105 | a notification for any name and any known status reads back as that name and status |
| Homework.ReadNotificationInverts | homework.py:102-105 | any message that reads back as (name, status) is exactly the notification built from them, and the status is a known one |
| Homework.ParseStatusIdentifiesRecord | homework.py:102-105 | two valid records give the same message exactly when they have the same name text and the same status |
| Homework.ApprovedRecordExample | homework.py:30-34 | a record named hw1 with status `approved` yields the notification carrying the approved verdict text |
| Homework.CheckTokens | homework.py:115-120 | true exactly when PRAKTICUM_TOKEN, TELEGRAM_TOKEN and TELEGRAM_CHAT_ID are all set, whatever their values |
| Homework.CheckTokensMissingSubset | homework.py:115-120 | unsetting any non-empty subset of the three secrets makes the check fail; unsetting none leaves the check's result unchanged |
| PyData.GetFindsEntry | homework.py:90-97 | a dict lookup finds a value exactly when some entry has the key, and the value found belongs to such an entry |
| PyData.GetSkipsOtherKeys | homework.py:75 | entries with other keys in front of a key do not change what the lookup finds |
| PyData.KeyErrorTextIsQuoted | homework.py:149 | `str()` of a KeyError whose key has only printable characters, no quotes and no backslashes is that key in single quotes |
| BotLoop.MissingStatusReport | homework.py:93 | the text of the missing-status KeyError is its message in single quotes |
| BotLoop.LoopStopsAtFirstFailure | homework.py:138-143 | when the first k records parse and record k does not, the loop sends exactly the first k notifications, in order, and then raises record k's error |
| BotLoop.FailureIsNotNotification | homework.py:148-152 | a failure report never reads back as a status notification |
| BotLoop.NoChangeBranchUnreachable | homework.py:136-145 | after check_response succeeds, the cycle sends the loop's notifications plus the report of the error it raised, and nothing for an empty list |
| BotLoop.FailedFetchReportsOnce | homework.py:133-135 | a request that raises, or an answer check_response rejects, produces exactly one message: the failure report for that error |
| BotLoop.FrozenCursorRepeats | homework.py:127 | the cursor never moves, so when the API keeps answering the same way, every cycle sends the same messages again |
| BotLoop.SendNotifications | homework.py:138-143 | the loop appends the notifications of the records, in order, up to the first record whose parse raises, and hands that exception on |
| BotLoop.PollOnce | homework.py:133-152 | one `try`/`except` pass appends exactly the cycle's messages to the chat |
| BotLoop.RunBot | homework.py:123-152 | when the Telegram library rejects the token, main stops at the bot's construction and sends nothing; once the bot is built, without all three secrets main raises SystemExit with the missing-variables message and sends nothing; otherwise the chat receives the messages of each cycle in order, all fetched with the start-up timestamp |

## Left out

- get_api_answer (homework.py:46-68) performs HTTP and JSON decoding. Its
  outcome, an answer or an exception, is an input function of the cycle
  number and the cursor. Its own exception texts are therefore not modelled.
- send_message (homework.py:37-43) is treated as always delivering. Its
  `except telegram.TelegramError()` names an instance rather than a class,
  so a real delivery failure raises a new error out of the handler. That
  error, and any crash it causes inside main's `except` branch, is not
  modelled.
- `time.time()` becomes the parameter `now`. `time.sleep(RETRY_TIME)` is
  left out: it does not change what is sent.
- The endless `while True` loop is bounded by the parameter `cycles`.
- BotLoop.RunBot: whether `telegram.Bot(token=TELEGRAM_TOKEN)`
  (homework.py:125) succeeds is the input `botBuilt`. The library's token
  validation is not modelled. That validation rejects an unset or empty
  TELEGRAM_TOKEN, so in the source the missing-variables exit is reached only
  when the Telegram token is accepted and another secret is missing.
- Dicts with duplicate keys are outside the model. `PyData.Get` returns the
  first entry with the key, while a decoded JSON object keeps the last.
- Logging, `load_dotenv`, and the bot object itself are left out.
  The error that parse_status logs before raising is not modelled.
- Floating-point JSON numbers are not represented. `Value` covers null,
  booleans, integers, strings, lists and dicts.
- PyData.Repr: characters above U+00FF that Python's `repr` escapes are
  kept as they are. Only control characters, U+007F to U+00A0 and U+00AD
  are escaped.
- `type(homework) == dict` and `isinstance` agree on decoded JSON values,
  so a record is a dict exactly when it is a `Dict` value.
