# NEXUS search bot: a Dafny model of its core

The NEXUS bot is a Telegram front end for a cluster of search nodes. A user
sends `/search <query>`. The bot checks the user's tier and daily quota,
checks that every node is ready, and asks the nodes one after another for
their streamed matches. It merges the lines into one list and delivers them
as a one-time paste link, or inline when the paste host fails. A search
counts against the quota only when real results went out.

Free users get 1 search per rolling day and premium users get 5. Premium
comes from access keys that the operator generates (`/genkey`) and users
redeem (`/redeem`). Every fifth referral through a `/start` link also earns
one week of premium. A background pass reminds premium users whose access
ends within a day. The operator can ban, unban and broadcast.

The model has seven modules:

- `Wrappers`: the `Option` type.
- `Text`: the Python string operations the bot relies on. These are `strip`
  with Python's whitespace set, `startswith`, substring `in`, `isdigit`,
  `int(s)` and `str(n)`.
- `Outbox`: the log of sends and sleeps that the background loops produce.
- `Ledger`: `modules/database.py`. The record rules are functions. The store
  is a class `Store` with the user map, the users' collection order, the key
  documents and the statistics record.
- `ApiClient`: `modules/api_client.py`. It covers the readiness check, the
  aggregation of the nodes' streamed lines and the paste upload. The
  readiness check and the aggregation are imperative methods proved against
  specification functions; the paste upload, which has no loop, is a
  function.
- `UserHandlers`: `modules/user_handlers.py`. It covers `/start`, `/search`,
  `/redeem` and `/account`, plus one pass of the expiry reminder loop.
- `AdminHandlers`: `modules/admin_handlers.py`. It covers `/genkey`, `/ban`,
  `/unban` and `/broadcast`.

Time is a whole number of seconds counted from `datetime.min`
(0001-01-01 00:00:00), and a day is 86400. Sleeps are recorded
in milliseconds. Whatever the outside world answers is an input:

- each node's status reply and search stream;
- the paste host's reply;
- the set of users a message can reach;
- the random key suffix;
- the JSON reading of a `{"error": …}` line (a function `decode`).

Notes on the code's behaviour:

- A referral reward does not reset the reminded flag (`notified_expiry`).
  Only `/redeem` sets it back to false.
- The broadcast sleeps 1.5 s after every send, the last one included. So
  n recipients give n short pauses, not n − 1.
- The nodes are asked one after another, in list order, for both the
  readiness check and the search. They are not asked concurrently.
- Key strings are not unique: `/genkey` inserts without any check. The keys
  collection is therefore a sequence of documents, and `/redeem` takes the
  first unused match, as `find_one` does.
- A redeem is not atomic. The key is marked used, and the user created if
  new, before the new expiry is computed. When that expiry falls outside
  `datetime`'s range, or the day count outside `timedelta`'s, the handler
  raises: the key is spent and the account is not upgraded.
- Integers are stored as signed 64-bit values. A `/genkey` day count, a
  `/ban` or `/unban` target, or a `/start` referrer id wider than that makes
  the database call raise, so the command writes nothing and sends nothing.

## Model

| member | source | states |
|---|---|---|
| Ledger.Store.constructor | modules/database.py:8-10 | An empty database: no users, no keys, no statistics record. |
| Ledger.Store.InitDb | modules/database.py:12-19 | The statistics record is created with both counters at 0 only when it is absent; an existing record is left unchanged. |
| Ledger.Store.CreateUser | modules/database.py:24-36 | The inserted record is free, has no expiry, 0 searches, last reset now, the given referrer, 0 referrals and is not banned; it is added to the map and at the end of the collection order, and the store's invariant holds. |
| Ledger.ResetLimits | modules/database.py:38-47 | Once a day has passed the counter is 0 and the reset time is now, otherwise the record is unchanged; afterwards the epoch has not elapsed, the counter never grows, and no other field changes. |
| Ledger.ResetIdempotent | modules/database.py:41-47 | A second reset check at the same instant changes nothing. |
| Ledger.Store.CheckAndResetLimits | modules/database.py:38-47 | Returns the counter of the reset record; writes the zero counter and new reset time only when the epoch elapsed and the user exists, and writes nothing otherwise. |
| Ledger.Counted | modules/database.py:51-54 | One committed search adds exactly 1 to the searches counter and the result count to the results counter (a missing counter counts from 0); the counters never decrease. |
| Ledger.Store.IncrementSearchUsage | modules/database.py:49-54 | The user's counter rises by exactly 1 and nothing else in the record changes; the statistics record is updated as `Counted` says, and only when it exists. |
| Ledger.ExtendedExpiry | modules/database.py:63-69 | The new expiry is the later of now and the current expiry (absent counts as now) plus the span: at least both, and equal to one of them plus the span. |
| Ledger.Referred | modules/database.py:57-72 | The referral count rises by exactly 1; when the new count is a multiple of 5 the referrer becomes premium with the extended expiry, otherwise tier and expiry are kept; no other field, `notifiedExpiry` included, changes. |
| Ledger.ReferralNeverShortensPremium | modules/database.py:63-69 | A referral never moves an existing premium expiry earlier. |
| Ledger.Store.HandleReferral | modules/database.py:56-73 | An unknown referrer is not credited and nothing changes; a known one is updated as `Referred` says, and the result is true exactly when the reward was granted. |
| Ledger.TierCountsPartition | modules/database.py:77-79 | Free and premium users together are all the users. |
| Ledger.Store.Report | modules/database.py:75-87 | A report exists exactly when the statistics record does. Its two counters are the stored ones, with a missing counter read as 0. It counts all users, the free and the premium users are counted from the store, and the two add up to the total. |
| Ledger.FirstUnused | modules/user_handlers.py:156 | The key `find_one` returns: an unused document with the string, with no earlier one; none when no document matches. |
| Ledger.FirstUnusedIffAny | modules/user_handlers.py:156-158 | A redeem finds a key exactly when some document with that string is still unused. |
| Ledger.MarkUsedConsumesOne | modules/user_handlers.py:161 | Marking the found document used removes exactly one redemption of its string. |
| Ledger.FirstUnusedAfterNone | modules/admin_handlers.py:18-22 | When no earlier document matches, a redeem finds the newly appended one. |
| Ledger.IssueAddsOne | modules/admin_handlers.py:18-22 | Inserting a key adds one redemption of its own string and none of any other. |
| Text.SkipSpaces | modules/api_client.py:51 | The first position from a start that is not whitespace: everything skipped is whitespace, and the character there is not. |
| Text.BackOverSpaces | modules/api_client.py:51 | Scanning back to a lower bound: everything passed over is whitespace, and the character before the stop is not. |
| Text.Strip | modules/api_client.py:51-52 | `str.strip()`: the slice of the line that starts at its first non-whitespace character, with only whitespace before and after it. It is empty exactly when the line is blank, and otherwise neither starts nor ends with whitespace. |
| Text.ContainsAt | modules/user_handlers.py:124 | A substring occurring at any offset makes `sub in s` true. |
| Text.NatToString | modules/user_handlers.py:74 | `str(n)` of a user id is a non-empty string of digits with no leading zero (the first digit is not `0` when `n > 0` or when there is more than one digit). |
| Text.DigitsValueOfNatToString | modules/user_handlers.py:62-63 | `int(str(n)) == n`. |
| Outbox.MeasuresOfConcat | modules/admin_handlers.py:71-83 | Pause counts, total sleep time, recipients and deliveries add up over concatenated logs. |
| ApiClient.FirstNotReady | modules/api_client.py:12-24 | Every node before the returned position is ready, and the node at that position, if any, is not. |
| ApiClient.FirstNotReadyIsFirst | modules/api_client.py:12-26 | The first node in list order that is not ready is the one the check stops at. |
| ApiClient.CheckApiStatus | modules/api_client.py:8-27 | Ready exactly when every node answers 200 with state "done". Then the message is "All API nodes are ready."; otherwise it names the first failing node in list order with the reason for that node. |
| ApiClient.Classify | modules/api_client.py:50-60 | A blank line is dropped. A line starting with `{"error":` that parses becomes "Backend Error: " plus the message. Any other line is kept stripped. No kept line is empty. |
| ApiClient.Kept | modules/api_client.py:50-60 | A body keeps at most its own number of lines, none of them empty. |
| ApiClient.NodeLines | modules/api_client.py:46-62 | What one node adds holds no empty line. A node that answers other than 200, or cannot be reached, adds exactly one line. A streaming node adds at most one line per body line plus one. |
| ApiClient.AggregateHasNoEmptyLine | modules/api_client.py:37-63 | No empty line ever reaches the result list. |
| ApiClient.AggregateSnoc | modules/api_client.py:37-63 | Adding a node at the end of the list appends exactly its lines. |
| ApiClient.AggregateConcat | modules/api_client.py:37-63 | The aggregate of two node lists is the first list's lines followed by the second's. |
| ApiClient.FailingNodeAddsOneLine | modules/api_client.py:46-62 | A node that answers other than 200, or cannot be reached, adds exactly one line and none of its body. |
| ApiClient.FetchNode | modules/api_client.py:38-62 | What one node adds, read line by line: its kept lines, then a "Failed to reach" line when the stream broke; or a single error line. |
| ApiClient.FetchSearchResults | modules/api_client.py:32-63 | The result list is every node's contribution concatenated in node-list order; a failing node never stops the nodes after it. |
| ApiClient.CreatePaste | modules/api_client.py:68-93 | A link is returned exactly when the host answers 201 with an id, and it is the host URL, "/", then the id; every other case gives "". |
| UserHandlers.Demote | modules/user_handlers.py:95-98 | The account ends up free exactly when it was free or its premium expiry has passed; nothing else changes. |
| UserHandlers.DeliverMeets | modules/user_handlers.py:122-146 | About `Deliver`, the delivery branch. No results and all-failure results commit nothing, and the latter reports `results[0]`. Real results go out as the paste link when there is one. Otherwise the first min(15, N) lines are shown, with a "more" count exactly when N > 15, and shown plus more equals N. |
| UserHandlers.DeliverResults | modules/user_handlers.py:122-146 | The delivery branch, asking the paste host only for real results, chooses what `Deliver` chooses. |
| UserHandlers.SearchStepMeets | modules/user_handlers.py:87-149 | About `SearchStep`, the decision sequence of a search. A banned user gets nothing and changes nothing. A lapsed premium is demoted first. The limit is 1 or 5 and the depth 10 or 50 by tier. The request is refused at or above the limit, and a not-ready cluster is reported. Usage is committed exactly when real results were delivered, and never beyond the daily limit. |
| UserHandlers.StepCases | modules/user_handlers.py:91-149 | The four ways a search ends: banned, limit reached, cluster not ready, searched; with the record and commit each leaves. |
| UserHandlers.GetOrCreateUser | modules/user_handlers.py:87-89 | The stored record when there is one, otherwise a freshly created one, which is added to the store. |
| UserHandlers.ExpirePremium | modules/user_handlers.py:95-98 | The demoted record is returned and written to the store. |
| UserHandlers.ServeQuery | modules/user_handlers.py:117-149 | Results are fetched and delivered as `Deliver` says; the user's counter and the statistics are incremented only for real results, and a committed search for a user id absent from the store leaves the users unchanged, as the unmatched update does. |
| UserHandlers.SearchWithinQuota | modules/user_handlers.py:100-149 | With the record demoted and its counter reset, the reply, the stored record and the statistics record are those `SearchStep` gives. |
| UserHandlers.SearchAdmitted | modules/user_handlers.py:94-149 | For a stored, unbanned requester: the demotion and the daily reset are written, and the reply, the stored record and the statistics record end as `SearchStep` says. |
| UserHandlers.SearchCmd | modules/user_handlers.py:82-149 | The reply, the requester's stored record and the statistics record are those `SearchStep` gives for the stored record, or for a new one when the user is unknown, from the readiness check, the aggregate and the paste link; keys are untouched. |
| UserHandlers.AllNodesDownReportsFirstNode | modules/user_handlers.py:124-126 | When every node fails, the reply is the first node's failure line and no quota is used. |
| UserHandlers.FailingNodesAggregate | modules/api_client.py:46-62 | Failing nodes give one line each, in order, and every such line reads as a failure. |
| UserHandlers.FailureLinesAreFailures | modules/user_handlers.py:124 | "Error from …" and "Failed to reach …" lines contain "Error" or "Failed". |
| UserHandlers.BackendErrorIsFailure | modules/user_handlers.py:124 | A "Backend Error: …" line counts as a failure line. |
| UserHandlers.Redeemed | modules/user_handlers.py:168-177 | The redeemer becomes premium, the reminded flag is cleared, and the expiry is the later of now and the current expiry plus the key's days; no other field changes. |
| UserHandlers.RedeemCmd | modules/user_handlers.py:151-179 | The key is rejected exactly when no unused key with the stripped string exists, and then nothing changes. Otherwise the first such document is marked used by the user, and the user is created if new, at the end of the collection order. The account is then updated as `Redeemed` says, unless the new expiry leaves the range of `timedelta` or `datetime`: then the reply is the overflow, and the spent key and the created user stay. |
| UserHandlers.SecondRedeemFails | modules/user_handlers.py:156-161 | A key string with a single unused document redeems once; a second redeem of it fails. |
| UserHandlers.ReferralLinkCreditsOwner | modules/user_handlers.py:60-74 | The `?start=<id>` link credits its owner when someone else opens it, and never its owner. |
| UserHandlers.StartCmd | modules/user_handlers.py:53-80 | A returning user changes nothing and is welcomed. For a new user, a referrer id wider than a stored integer makes the lookup fail: nothing changes and nothing is sent. Otherwise the user is created with the referrer credited first when eligible and known, and the referrer is congratulated exactly when the referral earned the reward. |
| UserHandlers.ReferralsNeeded | modules/user_handlers.py:193 | Always between 1 and 5; the next reward comes after exactly that many referrals and not sooner. |
| UserHandlers.TimeLeftAt | modules/user_handlers.py:195-206 | "Expired" exactly when the expiry is not in the future; otherwise hours < 24, minutes < 60, and the time shown is the true time left rounded down to the minute. |
| UserHandlers.AccountCmd | modules/user_handlers.py:181-213 | The reply shows the stored (or new) user's tier, referrals, referrals still needed, and premium time left only for premium users with an expiry. |
| UserHandlers.Expiring | modules/user_handlers.py:22-26 | Exactly the stored premium users expiring within the next day who have not been reminded. |
| UserHandlers.ExpiringKeepsOrder | modules/user_handlers.py:22-26 | The reminder query keeps the collection's order: its result is the order with some ids left out. |
| UserHandlers.RemindersMeasures | modules/user_handlers.py:28-42 | Each selected user is written to once, in order, with one second of sleep per user. |
| UserHandlers.MarkReminded | modules/user_handlers.py:36-39 | Marking the reached users neither adds nor removes any account. |
| UserHandlers.MarkRemindedPointwise | modules/user_handlers.py:36-39 | Only selected users whose message went out get the reminded flag; every other record is unchanged. |
| UserHandlers.CheckPremiumExpiries | modules/user_handlers.py:14-42 | One pass sends the reminders the query selects and marks exactly those reached. |
| UserHandlers.ExpiryPassMarks | modules/user_handlers.py:22-39 | After a pass, a user carries a newly set flag exactly when it was selected and reached. |
| UserHandlers.RemindedAtMostOnce | modules/user_handlers.py:22-26 | A reminded user is never selected again until a redeem clears the flag. |
| AdminHandlers.IssuedKey | modules/admin_handlers.py:16-22 | The key starts with "NEXUS-", the rest of it is exactly the suffix, it has the given days, and it is unused. |
| AdminHandlers.GenKeyCmd | modules/admin_handlers.py:10-24 | Only the operator inserts a key, exactly one, at the end of the collection, and gets it back. A day count wider than a stored integer inserts nothing and gets no reply. |
| AdminHandlers.IssuedKeySurvivesStrip | modules/admin_handlers.py:16 | A generated key contains no whitespace, so `/redeem <key>` looks up exactly the key. |
| AdminHandlers.IssuedKeyRedeemsOnce | modules/admin_handlers.py:18-22 | A fresh key is taken by the first redeem of its string and by no second one. |
| AdminHandlers.SetBanFlag | modules/admin_handlers.py:32-45 | Only the target's banned flag changes; the modified count is 1 exactly when the target exists and the flag actually changed. |
| AdminHandlers.BanCmd | modules/admin_handlers.py:26-37 | Non-operators change nothing. A target wider than a stored integer changes nothing and gets no reply. Otherwise the target is banned, and the reply is "not found" when nothing was modified, re-banning an already banned user included. |
| AdminHandlers.UnbanCmd | modules/admin_handlers.py:39-50 | The mirror image of `BanCmd`. |
| AdminHandlers.BannedUserIsRefused | modules/user_handlers.py:91-92 | After a ban, the user's search is refused and changes nothing. |
| AdminHandlers.Delivered | modules/admin_handlers.py:71-76 | Successful sends never outnumber recipients. |
| AdminHandlers.RunBroadcast | modules/admin_handlers.py:70-88 | Every recipient is tried once, in list order. The success count is the number of sends that got through. The log is the rounds followed by the summary to the operator. |
| AdminHandlers.RoundMeasures | modules/admin_handlers.py:72-83 | One round is one send followed by 1.5 s, plus 10 s after every fiftieth send. |
| AdminHandlers.FullBatches | modules/admin_handlers.py:82 | The number of full batches of 50 grows by one exactly at each multiple of 50. |
| AdminHandlers.BroadcastSchedule | modules/admin_handlers.py:71-83 | n recipients are written to in order. The log has n pauses of 1.5 s, floor(n/50) of 10 s, and 1500·n + 10000·floor(n/50) ms in total. |
| AdminHandlers.BroadcastCmd | modules/admin_handlers.py:52-91 | Non-operators get nothing. An empty collection gets "no users" and no broadcast. Otherwise the start notice carries the user count and the broadcast covers every stored user. |

## Left out

- Concurrency. The model leaves out the ten-slot search semaphore, `create_task`, the interleaving of handlers and the lost update in `handle_referral`'s read-then-write. The broadcast task runs to completion inside `BroadcastCmd`.
- The reminder loop's `while True` and its hourly sleep. One pass is modelled.
- The transport and the network. Message text, emojis, `get_me`, the wait-message edits and the regex dispatch of commands are left out; replies are datatypes. Sends become membership of the `reachable` set, and node, status and paste replies are inputs.
- JSON parsing is the input function `decode`.
- Floating-point time. Sleeps are whole milliseconds, times whole seconds, and a handler uses one `now` where the source reads the clock several times.
- Ledger.Referred, Ledger.Store.HandleReferral, UserHandlers.StartCmd: do not model the overflow when the seven-day reward would pass the end of year 9999. There `handle_referral` raises, so `/start` creates no user and sends no welcome, while the model credits the referrer and creates the user. Only an expiry that a redeem set within a week of that date can reach it.
- UserHandlers.RedeemCmd: decides the `datetime` range to the whole second, while the source's datetimes also carry microseconds.
- Clock readings are taken to lie inside `datetime`'s range, and Telegram user ids inside a stored integer's.
- Ledger.Store.Report: returns `None` when the statistics record is missing. The source fails with an exception instead.
- Text.IsDigits: covers ASCII digits only. Python's `isdigit` also accepts other Unicode digits.
- ApiClient.FetchSearchResults: does not model the outer failure when the HTTP client cannot be built ("Error during search: …"). ApiClient.CheckApiStatus likewise leaves out "Cluster is currently unreachable.".
- The query text and the per-tier result depth are not sent to the nodes. Their replies are given per node.
- `modules/config.py`, `main.py` and `modules/help.py` are not part of this model.
