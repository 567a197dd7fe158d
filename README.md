# booking-check: a Dafny model of the room-watch bot

booking-check is a LINE chat bot that watches one plan page of a hotel's
booking site. A user sends `<checkin> <checkout> [adults]`. The bot checks the
page at once. When no room is free, it keeps a monitoring entry for the user,
and a background poller re-checks every active entry and pushes a
notification when the room turns up. The words `說明`/`help`/`幫助` ask for
help, `狀態` asks for the monitoring status, and `停止` stops monitoring.

The model has five modules:

- `Options` is the `Option` type.
- `Text` holds the Python string built-ins the handler relies on:
  `str.strip()` and `str.split()` with CPython's whitespace set,
  `str.lower()`, `int(token)` and `str(n)`.
- `RoomChecker` models `room_checker.py`:
  - the search URL of `build_url`, with `urlencode`/`quote_plus` written out,
    including UTF-8 percent-escapes;
  - the availability verdict of `check_availability`, taken over an abstract
    response;
  - the result record of `check_room_by_dates`.
- `Commands` models the dispatch and validation in `handle_message`:
  - the stripped text, with the help words compared lower-cased, then the
    status word, then the stop word;
  - otherwise the token count, the `int()` of the third token, the
    `YYYY-MM-DD` shape check and the 1..10 range, each failure a rejection
    reason.
- `Monitoring` models `monitoring_tasks` and everything that changes it:
  - the class `Monitor` holds the dictionary as a map plus its insertion
    order, and the log of pushes sent;
  - its methods model `process_room_query_background`, `stop_monitoring`,
    `send_status`, `send_notification`, the chat handler and one pass of the
    `monitor_rooms` loop, which visits a snapshot of the entries in insertion
    order;
  - pure functions give the same effects on registry values (`Respond`,
    `Cycle`, `Step`, `Run`);
  - lemmas over any sequence of chat messages and poller ticks prove that a
    registered request is notified at most once, and that deactivation is
    final.

The network enters as a parameter `fetch: string -> Response`: the response a
GET of each URL yields. A response is a transport or parse failure, or a
status code and the page's elements (tag and class names). The model itself
does no I/O.

Two behaviours of the code may be unexpected, and the model keeps them:

- One might expect a checkout on or before the checkin to be refused. The
  handler never compares the dates (`Commands.DatesUnordered`), and it does
  not check the calendar either (`Commands.DatesUnvalidated`).
- One might expect any non-2xx status to count as a failed check. The code
  calls `raise_for_status`, which raises only for statuses 400..599, so any
  other status with a reservation button on the page reads as available
  (`RoomChecker.IsErrorStatus`).

## Model

| member | source | states |
|---|---|---|
| Text.Strip | app.py:198 | `str.strip()`; what it keeps and cuts is stated by `StripSpec`, `StripIsSlice`, `StripKeeps` and `StripUntrimmed` |
| Text.StripKeeps | app.py:198 | `strip()` keeps every non-whitespace character of the message |
| Text.StripSpec | app.py:198 | `strip()` yields the empty string exactly for all-whitespace text; otherwise the result starts and ends with non-whitespace, and only whitespace is cut off on both sides |
| Text.StripIsSlice | app.py:198 | what `strip()` keeps is the contiguous piece of the message right after its leading whitespace |
| Text.StripUntrimmed | app.py:198 | a text with no whitespace at either end is its own `strip()` |
| Text.Split | app.py:301 | `split()` yields only non-empty, whitespace-free tokens |
| Text.SplitJoin | app.py:301 | splitting undoes joining non-empty, whitespace-free tokens with single spaces |
| Text.SplitAllSpace | app.py:301 | text of whitespace alone yields no token |
| Text.SplitLeadingSpace | app.py:301 | any run of whitespace before the text is skipped |
| Text.SplitTrailingSpace | app.py:301 | any run of whitespace after the text is dropped |
| Text.SplitToken | app.py:301 | a non-empty run of non-whitespace followed by any non-empty run of whitespace (tabs, U+3000, ...) is one token, and splitting goes on after the whitespace |
| Text.SplitStrip | app.py:198-301 | `split()` finds the same tokens with or without `strip()` first |
| Text.Lower | app.py:213 | `lower()` keeps the length, leaves no ASCII capital, keeps every other character, and maps each ASCII capital to its small letter |
| Text.ParseInt | app.py:307 | `int(token)` succeeds exactly on an optional sign followed by digits with single underscores between them; an unsigned literal gives a non-negative value |
| Text.NatToString | room_checker.py:29 | `str(n)` of a natural number is non-empty decimal digits without a leading zero |
| Text.IntToString | room_checker.py:29 | `str(n)` is non-empty and has no whitespace |
| Text.NatToStringValue | room_checker.py:29 | the digits `str(n)` prints have the value n |
| Text.ParseIntToString | app.py:307 | `int(str(n)) == n` for every integer n (within CPython's digit limit, see "Left out") |
| Text.DigitsParse | app.py:307 | a non-empty run of digits is a literal `int()` accepts, with no underscores to drop |
| RoomChecker.Utf8 | room_checker.py:41 | the UTF-8 encoding `quote_plus` escapes is a sequence of bytes |
| RoomChecker.Utf8Shape | room_checker.py:41 | a UTF-8 sequence is 1 to 4 bytes, a single byte exactly for ASCII, otherwise a lead byte of at least 0xC0 followed by continuation bytes 0x80..0xBF |
| RoomChecker.PercentEncode | room_checker.py:41 | each byte becomes three characters, each of them `%` or unreserved, so an escape never holds `&`, `=` or `+` |
| RoomChecker.QuotePlus | room_checker.py:41 | `quote_plus` output holds only unreserved characters, `+` and `%`, so never a `&` or `=`; it is never shorter than the input and leaves unreserved text unchanged |
| RoomChecker.RemoveHyphens | room_checker.py:20-22 | `replace('-', '')` leaves no hyphen and never lengthens the date |
| RoomChecker.RemoveHyphensKeeps | room_checker.py:20-22 | every character other than `-` is kept, as often as it occurs |
| RoomChecker.RemoveHyphensAppend | room_checker.py:20-22 | removing hyphens distributes over concatenation |
| RoomChecker.RemoveHyphensNone | room_checker.py:20-22 | a string without hyphens is unchanged |
| RoomChecker.QueryParams | room_checker.py:24-39 | the dictionary literal of `build_url`; its keys and values are stated by `QueryLayout` |
| RoomChecker.UrlEncode | room_checker.py:41 | `urlencode`: `QuotePlus` escapes each key and value so none holds `&` or `=`, and `PlainUrlEncode` gives the text of pairs that need no escaping |
| RoomChecker.BuildUrl | room_checker.py:13-41 | the URL is the plan page, `?` and the encoded query; with `QueryLayout` and `BuildUrlText` the query text is pinned |
| RoomChecker.QueryLayout | room_checker.py:24-39 | the query names the fourteen keys in order (sort, room_id, the two dates, adults, child1..child5, children, rooms, dayuseFlg, dateUndecidedFlg); sort and rooms are 1, every other fixed value is 0, and the rest are the room, the hyphen-free dates and `str(adults)` |
| RoomChecker.BuildUrlText | room_checker.py:41 | when room and dates need no escaping, the URL is the plan page, `?` and the `key=value` pairs joined by `&`, written as they are |
| RoomChecker.QueryKeysUnreserved | room_checker.py:24-39 | no key and no fixed value of the query needs escaping |
| RoomChecker.PlainUrlEncode | room_checker.py:41 | `urlencode` of pairs that need no escaping is the plain `k=v&...` text |
| RoomChecker.SelectFrom | room_checker.py:52 | `select_one('a.c-button-reservation')` returns the first `a` element with class `c-button-reservation`, and returns none only when there is no such element |
| RoomChecker.IsReservationButton | room_checker.py:52 | the selector `a.c-button-reservation`: an `a` element with class `c-button-reservation`; used by `SelectFrom` and `CheckAvailability` |
| RoomChecker.IsErrorStatus | room_checker.py:47 | the statuses `raise_for_status` raises for, 400..599; `CheckAvailability` states their effect |
| RoomChecker.CheckAvailability | room_checker.py:43-58 | true exactly when the request got a response whose status is not 400..599 and the page holds an `a.c-button-reservation`; a failed request is false |
| RoomChecker.CheckRoomByDates | room_checker.py:60-71 | echoes checkin, checkout and adults; the url is `build_url` with the default room; `available` is the verdict on fetching that url |
| Commands.ParseRequest | app.py:299-315 | fewer than two tokens, a third token that is not an integer, a date that is not `YYYY-MM-DD` and adults outside 1..10 are each rejected, in that order; an accepted request holds the first two tokens and the third token's value, or 2 when there is none |
| Commands.IsDateShape | app.py:310-311 | `^\d{4}-\d{2}-\d{2}$` on ASCII digits; `DateShapeHasNoSpace` and `DateDigits` state what an accepted date looks like |
| Commands.AdultsToken | app.py:307 | the third token's `int()`, or 2 without a third token; `ParseRequest` states its use |
| Commands.Interpret | app.py:198-315 | on the stripped text: help exactly when its lower-case is a help word; status and stop exactly on their words; otherwise the request parse of the text's tokens |
| Commands.ExtraTokensIgnored | app.py:305-307 | tokens after the third do not change the outcome |
| Commands.DateShapeHasNoSpace | app.py:310 | a `YYYY-MM-DD` token holds no whitespace |
| Commands.TypedRequestSplits | app.py:301 | a request typed with any whitespace between its parts and at both ends splits into the dates and the adult count |
| Commands.CheckoutSplits | app.py:301 | the checkout, the optional adult count after any whitespace, and trailing whitespace split into their tokens |
| Commands.LastToken | app.py:301 | a token followed only by whitespace splits into that token |
| Commands.InterpretTypedRequest | app.py:198-315 | every valid request (two date-shaped tokens, adults 1..10 or omitted), typed with any whitespace between its parts and at both ends, is read back as exactly that request, with 2 adults when omitted |
| Commands.LongTextIsRequest | app.py:213-301 | a message whose stripped text is longer than any command word goes to the request parser |
| Commands.DatesUnordered | app.py:309-312 | a checkout before the checkin is accepted |
| Commands.DatesUnvalidated | app.py:309-312 | a thirteenth month or a day zero is accepted |
| Commands.AcceptedRequestUrl | room_checker.py:20-41 | an accepted date enters the URL as its eight digits, and the URL of an accepted request needs no escaping |
| Commands.DateDigits | room_checker.py:20-22 | a `YYYY-MM-DD` date loses exactly its two hyphens and becomes eight unreserved characters |
| Commands.DigitsWithoutHyphens | app.py:310 | the year, month and day parts of a date shape are digits |
| Monitoring.SameKeysWellFormed | app.py:136 | the insertion order stays valid while the set of keys is unchanged |
| Monitoring.Store | app.py:83-88 | assigning a key overwrites its value and keeps the key's position, or appends a new key at the end of the insertion order; the order stays valid |
| Monitoring.QueryRoom | app.py:51-111 | one push to the user; an available room leaves the registry alone; otherwise the user's entry becomes the request, active; no other user's entry changes |
| Monitoring.StopTask | app.py:276-281 | on an existing entry only `active` is cleared and the stay is kept; an unknown user leaves the registry alone; no other entry changes; the reply is "stopped" or "no task" |
| Monitoring.StatusReply | app.py:246-257 | reports running, with the stay, exactly when the user has an active entry; otherwise "no task" |
| Monitoring.FoundRoom | app.py:137-147 | an entry's room is found when the entry is active and the check of its stay says available; the lemmas below state its use |
| Monitoring.AfterPoll | app.py:147-157 | a visit keeps the stay, and the entry stays active exactly when it was active and its room was not found |
| Monitoring.PollNotes | app.py:147-155 | a visit sends at most one push, a room-found notification to the entry's user, exactly when the entry is active and its room is found |
| Monitoring.AfterCycle | app.py:136-159 | a pass neither adds nor removes entries |
| Monitoring.CycleEntries | app.py:136-159 | a pass keeps each entry's stay, and the entry stays active exactly when it was active and its room was not found |
| Monitoring.Items | app.py:136 | the snapshot lists every key once, in insertion order, with its entry |
| Monitoring.ItemsSnapshot | app.py:136 | the snapshot matches the registry and visits no user twice |
| Monitoring.CycleLog | app.py:136-155 | the notifications of a pass in visiting order; `CycleNotified` counts them per user, `PassStep` extends them by one visit |
| Monitoring.PollPrefix | app.py:136-157 | the entries after a pass has visited some items; `PollPrefixSpec` and `PollPrefixAll` state the result |
| Monitoring.PollPrefixSpec | app.py:136-157 | after the first n visits of a pass, the visited entries are polled and the others are untouched |
| Monitoring.PassStep | app.py:136-157 | each visit deactivates and notifies the visited entry exactly when its room is found |
| Monitoring.PollPrefixAll | app.py:136-159 | the sequential pass over the snapshot gives, entry by entry, the per-entry poll result |
| Monitoring.PollPrefixKeys | app.py:157 | a pass adds no key it does not visit |
| Monitoring.Cycle | app.py:136-159 | one pass over the snapshot keeps the insertion order and the set of keys; `CycleEntries`, `CycleNotified` and `InactiveNotChecked` state the rest |
| Monitoring.Respond | app.py:213-297 | every command is answered with exactly one push to its sender, never a room-found notification |
| Monitoring.Step | app.py:131-315 | no event removes an entry, and the insertion order stays valid |
| Monitoring.StepChat | app.py:195-210 | a chat message is acknowledged first and then carried out |
| Monitoring.RespondKeepsShape | app.py:83-281 | commands keep the registry valid and remove no entry |
| Monitoring.StepEntry | app.py:83-281 | after any event, every entry either holds the stay it held before or is the request that event registered, active |
| Monitoring.RespondEntry | app.py:83-281 | the same, for each command |
| Monitoring.StepKeepsValidRequests | app.py:299-315 | every entry added holds a request that passed validation |
| Monitoring.RunKeepsValidRequests | app.py:299-315 | the same over any sequence of events |
| Monitoring.Run | app.py:131-167 | a sequence of events keeps the registry valid and removes no entry |
| Monitoring.NotifiedAppend | app.py:149 | notifications in a log add up over its parts |
| Monitoring.CycleNotified | app.py:136-159 | a pass notifies a user exactly once if the user's entry is active and its room is found, and never otherwise |
| Monitoring.ListsLast | app.py:136 | in a snapshot the last user occurs nowhere else |
| Monitoring.NotesNotified | app.py:147-155 | visiting one entry notifies that entry's user at most once, and no one else |
| Monitoring.StepBalance | app.py:83-281 | for each event, notifications sent to a user plus "still monitored" afterwards never exceed "monitored" before, plus one if the event registers a request |
| Monitoring.RespondBalance | app.py:51-297 | commands send no room-found notification and can turn monitoring on only by registering a request |
| Monitoring.RunBalance | app.py:131-167 | the balance holds over any sequence of events |
| Monitoring.AtMostOneNotification | app.py:136-159 | with no new registration, a user is notified at most once, however many passes, stops and messages occur |
| Monitoring.DeactivationFinal | app.py:137-157 | an inactive or missing entry stays inactive and is never notified until a new request is registered |
| Monitoring.InactiveNotChecked | app.py:137-138 | a pass depends on the network only at the URLs of active entries |
| Monitoring.SameVisit | app.py:137-157 | a visit reads the network only through the verdict on an active entry's URL |
| Monitoring.SameCycleLog | app.py:136-159 | passes whose per-entry notifications agree send the same log |
| Monitoring.FailureIsolated | app.py:136-159 | a failed fetch for one entry leaves that entry active and does not stop the next entry from being notified and deactivated |
| Monitoring.CycleLogPair | app.py:136-155 | a pass over two entries sends the first entry's notifications and then the second's |
| Monitoring.Monitor.constructor | app.py:23 | the registry starts empty |
| Monitoring.Monitor.SendNotification | app.py:25-49 | appends exactly one room-found push for the user |
| Monitoring.Monitor.ProcessRoomQuery | app.py:51-111 | the registry and pushes are those of `QueryRoom`; an available room leaves the entries unchanged; otherwise only the user's entry is set, active |
| Monitoring.Monitor.StopMonitoring | app.py:276-297 | the effect of `StopTask`: only the user's `active` flag is cleared, if the user has an entry |
| Monitoring.Monitor.SendStatus | app.py:245-269 | changes no entry; reports running exactly when the user has an active entry |
| Monitoring.Monitor.PollEntry | app.py:137-157 | an inactive entry is skipped; an active one whose room is found is notified and then deactivated; otherwise nothing changes |
| Monitoring.Monitor.MonitorOnce | app.py:136-159 | the loop visits the snapshot in insertion order, leaving the entries and the pushes of the sequential pass |
| Monitoring.Monitor.Visit | app.py:137-157 | one loop iteration extends the pass by the next snapshot entry |
| Monitoring.Monitor.HandleMessage | app.py:195-315 | acknowledges, then the registry and pushes follow the command the text is read as |
| Monitoring.Monitor.Execute | app.py:213-351 | each command branch has the effect of `Respond` |
| Monitoring.Monitor.Tick | app.py:131-167 | one poller pass has the effect of `Step` on a tick; the registry stays valid |

## Left out

- The Flask routes, webhook signature checks and LINE SDK calls are not modelled. A reply or push is an entry appended to `outbox`, its wording is reduced to the constructor of `Message`, and delivery always succeeds.
- Threads and timing are not modelled: the daemon threads, `time.sleep(1800)` and the endless `while True` loop. Events run one after another, so a command cannot overwrite an entry in the middle of a pass. A pass is one call to `Tick`, and repeated passes are sequences of events.
- The GET request, its timeout and HTML parsing with BeautifulSoup/lxml are left out. What they yield is the `fetch` parameter, fixed for the length of one pass.
- `int()` and the `\d` of the date pattern are restricted to ASCII digits. Python also accepts other Unicode decimal digits.
- Text.ParseInt: does not model CPython's limit on integer-string conversion (4300 digits by default since 3.11 and the 3.10.7/3.9.14 releases). Above it `int()` raises `ValueError`, so a third token of more than 4300 digits is rejected by Python as not an integer, while the model reads it as an out-of-range count (and, with a malformed date, as a bad date).
- Text.ParseIntToString: holds for integers of at most 4300 digits in CPython; `str()` of a longer integer raises. The adult counts the bot accepts are 1..10.
- `lower()` is modelled on ASCII letters only. The help words are ASCII or CJK, so a non-ASCII letter never lower-cases into one of them.
- Exceptions from a failed push are not modelled. These include the error push after a failed push in `process_room_query_background` and the `send_general_error` path. An exception that aborts `handle_message` after a failed acknowledgement is left out as well.
- The `User-Agent` header is not modelled. It does not affect any result the bot computes.
- Monitoring.Monitor.HandleMessage: states its effect through `Respond`. `Monitoring.StepChat` ties that to `Step` on a chat event.
- RoomChecker.BuildUrlText: states the URL text only for rooms and dates that need no escaping. In general the URL is stated through `UrlEncode`.
