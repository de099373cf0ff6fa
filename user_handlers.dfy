/**
 * The user commands (modules/user_handlers.py): `/start` with its referral
 * credit, the `/search` pipeline and the delivery of its results, `/redeem`,
 * `/account`, and one pass of the premium-expiry reminder loop. Each command
 * reads and writes the store directly, as the handlers do with the
 * collections.
 */
module UserHandlers {
  import opened Wrappers
  import opened Text
  import opened Ledger
  import opened ApiClient
  import opened Outbox

  const FreeDailyLimit: nat := 1
  const PremiumDailyLimit: nat := 5
  /** Matches asked of each backend file, per tier. */
  const FreeResultDepth: nat := 10
  const PremiumResultDepth: nat := 50
  /** Lines shown inline when the paste upload fails. */
  const PreviewLines: nat := 15
  /** Pause between two expiry reminders, in milliseconds. */
  const ReminderPauseMs: nat := 1000

  function DailyLimit(t: Tier): nat {
    if t == Premium then PremiumDailyLimit else FreeDailyLimit
  }

  function ResultDepth(t: Tier): nat {
    if t == Premium then PremiumResultDepth else FreeResultDepth
  }

  // ---------------------------------------------------------------------------
  // /search

  /** A premium account whose expiry has passed. */
  predicate PremiumLapsed(u: User, now: int) {
    u.tier == Premium && u.premiumExpiry.Some? && u.premiumExpiry.value < now
  }

  /** The account as the search handler sees it once a lapsed premium has been turned free. */
  function Demote(u: User, now: int): (r: User)
    ensures r.tier == Free <==> u.tier == Free || PremiumLapsed(u, now)
    ensures r == u.(tier := r.tier)
  {
    if PremiumLapsed(u, now) then u.(tier := Free) else u
  }

  /** A result line that reports a failure rather than data. */
  predicate IsFailureLine(line: string) {
    Contains(line, "Error") || Contains(line, "Failed")
  }

  predicate AllFailures(results: seq<string>) {
    forall i :: 0 <= i < |results| ==> IsFailureLine(results[i])
  }

  /** How a search's results reach the user. */
  datatype Delivery =
    | NoResults
    | AllFailed(diagnostic: string)
    | Pasted(link: string, count: nat)
    | Fallback(preview: seq<string>, count: nat, more: Option<nat>)

  /** The deliveries of real results, the only ones that use up quota. */
  predicate Commits(d: Delivery) {
    d.Pasted? || d.Fallback?
  }

  /**
   * The delivery chosen for `results` when the paste upload returned
   * `pasteUrl` ("" when it failed).
   */
  function Deliver(results: seq<string>, pasteUrl: string): Delivery
  {
    if results == [] then NoResults
    else if AllFailures(results) then AllFailed(results[0])
    else if pasteUrl != [] then Pasted(pasteUrl, |results|)
    else if |results| > PreviewLines then
      Fallback(results[..PreviewLines], |results|, Some(|results| - PreviewLines))
    else
      Fallback(results, |results|, None)
  }

  /**
   * What the delivery branch of `search_cmd` promises: empty and all-failure
   * results commit nothing and the latter reports `results[0]`; real results
   * go out as the paste link, or as the first min(15, N) lines with a "more"
   * count exactly when N > 15.
   */
  lemma DeliverMeets(results: seq<string>, pasteUrl: string, d: Delivery)
    requires d == Deliver(results, pasteUrl)
    ensures d.NoResults? <==> results == []
    ensures d.AllFailed? <==> results != [] && AllFailures(results)
    ensures d.AllFailed? ==> d.diagnostic == results[0]
    ensures Commits(d) <==> results != [] && !AllFailures(results)
    ensures d.Pasted? <==> Commits(d) && pasteUrl != []
    ensures d.Pasted? ==> d.link == pasteUrl && d.count == |results|
    ensures d.Fallback? ==> d.count == |results|
    ensures d.Fallback? ==> |d.preview| == (if |results| < PreviewLines then |results| else PreviewLines)
    ensures d.Fallback? ==> d.preview == results[..|d.preview|]
    ensures d.Fallback? ==> (d.more.Some? <==> |results| > PreviewLines)
    ensures d.Fallback? && d.more.Some? ==> |d.preview| + d.more.value == |results|
  {
  }

  datatype SearchOutcome =
    | Banned
    | LimitReached(limit: nat)
    | NotReady(diagnostic: string)
    | Searched(depth: nat, delivery: Delivery)

  /** The reply, the requester's record afterwards, and whether usage was committed. */
  datatype SearchResult = SearchResult(outcome: SearchOutcome, user: User, committed: bool)

  /** The usage count the quota check sees: after demotion and the daily reset. */
  function UsageSeen(u: User, now: int): nat {
    ResetLimits(Demote(u, now), now).searchesToday
  }

  /**
   * The decision sequence of `search_cmd` for the requester's record `u`:
   * banned, then demotion, then quota, then readiness, then delivery, then
   * commit. `ready`/`diagnostic` are the readiness check's answer, `results`
   * the aggregated lines, `pasteUrl` the upload's link.
   */
  function SearchStep(u: User, now: int, ready: bool, diagnostic: string, results: seq<string>, pasteUrl: string)
    : SearchResult
  {
    if u.isBanned then SearchResult(Banned, u, false)
    else
      var d := Demote(u, now);
      var limit := DailyLimit(d.tier);
      var reset := ResetLimits(d, now);
      if reset.searchesToday >= limit then SearchResult(LimitReached(limit), reset, false)
      else if !ready then SearchResult(NotReady(diagnostic), reset, false)
      else
        var delivery := Deliver(results, pasteUrl);
        if Commits(delivery) then
          SearchResult(Searched(ResultDepth(d.tier), delivery), reset.(searchesToday := reset.searchesToday + 1), true)
        else
          SearchResult(Searched(ResultDepth(d.tier), delivery), reset, false)
  }

  /**
   * What `search_cmd` promises: a banned user gets nothing and changes
   * nothing; the quota is checked on the demoted, reset record; a search is
   * counted exactly when real results were delivered, and never beyond the
   * tier's daily limit.
   */
  lemma SearchStepMeets(u: User, now: int, ready: bool, diagnostic: string, results: seq<string>, pasteUrl: string,
                        r: SearchResult)
    requires r == SearchStep(u, now, ready, diagnostic, results, pasteUrl)
    ensures u.isBanned ==> r == SearchResult(Banned, u, false)
    ensures !u.isBanned ==> r.user.tier == Demote(u, now).tier
    ensures !u.isBanned && PremiumLapsed(u, now) ==> r.user.tier == Free
    ensures !u.isBanned ==> (r.outcome.LimitReached? <==> UsageSeen(u, now) >= DailyLimit(r.user.tier))
    ensures r.outcome.LimitReached? ==> r.outcome.limit == DailyLimit(r.user.tier)
    ensures r.outcome.NotReady? <==> !u.isBanned && UsageSeen(u, now) < DailyLimit(r.user.tier) && !ready
    ensures r.outcome.NotReady? ==> r.outcome.diagnostic == diagnostic
    ensures r.outcome.Searched? ==> r.outcome.depth == ResultDepth(r.user.tier)
    ensures r.outcome.Searched? ==> r.outcome.delivery == Deliver(results, pasteUrl)
    ensures r.committed <==> r.outcome.Searched? && Commits(r.outcome.delivery)
    ensures !u.isBanned ==> r.user.(searchesToday := UsageSeen(u, now)) == ResetLimits(Demote(u, now), now)
    ensures !u.isBanned ==> r.user.searchesToday == UsageSeen(u, now) + (if r.committed then 1 else 0)
    ensures r.committed ==> r.user.searchesToday <= DailyLimit(r.user.tier)
  {
  }

  /** The record a command works on: the stored one, or the one `get_or_create_user` makes. */
  function Requester(users: map<int, User>, userId: int, now: int): User {
    if userId in users then users[userId] else NewUser(userId, None, now)
  }

  /** The `get_user`, then `create_user` if absent, that every command opens with. */
  method GetOrCreateUser(db: Store, userId: int, now: int) returns (user: User)
    requires db.Valid()
    modifies db`users, db`order
    ensures db.Valid()
    ensures user == Requester(old(db.users), userId, now) && user.userId == userId
    ensures db.users == old(db.users)[userId := user]
    ensures db.order == if userId in old(db.users) then old(db.order) else old(db.order) + [userId]
  {
    if userId in db.users {
      user := db.users[userId];
      assert db.users == db.users[userId := user];
    } else {
      user := db.CreateUser(userId, None, now);
    }
  }

  /** The expiry step of `search_cmd`: a lapsed premium is turned free, in the store and in hand. */
  method ExpirePremium(db: Store, user: User, now: int) returns (current: User)
    requires db.Valid() && user.userId in db.users && db.users[user.userId] == user
    modifies db`users
    ensures db.Valid()
    ensures current == Demote(user, now)
    ensures db.users == old(db.users)[user.userId := current]
  {
    current := user;
    if user.tier == Premium {
      if user.premiumExpiry.Some? && user.premiumExpiry.value < now {
        current := user.(tier := Free);
        db.users := db.users[user.userId := current];
      }
    }
    assert db.users == old(db.users)[user.userId := current];
  }

  /**
   * The delivery branch of `search_cmd` once the results are in: the paste
   * host is asked only when there are real results.
   */
  method DeliverResults(results: seq<string>, pasteBase: string, pasteReply: PasteReply) returns (d: Delivery)
    ensures d == Deliver(results, CreatePaste(pasteBase, pasteReply))
  {
    if results == [] {
      return NoResults;
    }
    if AllFailures(results) {
      return AllFailed(results[0]);
    }
    var pasteUrl := CreatePaste(pasteBase, pasteReply);
    if pasteUrl != [] {
      d := Pasted(pasteUrl, |results|);
    } else if |results| > PreviewLines {
      d := Fallback(results[..PreviewLines], |results|, Some(|results| - PreviewLines));
    } else {
      d := Fallback(results, |results|, None);
    }
  }

  /** `SearchStep` applied to what the store, the nodes and the paste host give `search_cmd`. */
  function SearchOf(users: map<int, User>, userId: int, now: int,
                    urls: seq<string>, statusReplies: seq<StatusReply>, nodeReplies: seq<NodeReply>,
                    decode: string -> Option<string>, pasteBase: string, pasteReply: PasteReply): SearchResult
    requires |statusReplies| == |urls| && |nodeReplies| == |urls|
  {
    SearchStep(Requester(users, userId, now), now,
               FirstNotReady(statusReplies) == |urls|, ReadinessMessage(urls, statusReplies),
               Aggregate(urls, nodeReplies, decode), CreatePaste(pasteBase, pasteReply))
  }

  /**
   * `search_cmd`. The readiness check, the nodes' answers and the paste
   * host's answer are inputs; the store ends up as `SearchStep` says.
   */
  method SearchCmd(db: Store, userId: int, now: int,
                   urls: seq<string>, statusReplies: seq<StatusReply>, nodeReplies: seq<NodeReply>,
                   decode: string -> Option<string>, pasteBase: string, pasteReply: PasteReply)
    returns (outcome: SearchOutcome)
    requires db.Valid() && |statusReplies| == |urls| && |nodeReplies| == |urls|
    modifies db
    ensures db.Valid()
    ensures var r := SearchStep(Requester(old(db.users), userId, now), now,
                                FirstNotReady(statusReplies) == |urls|, ReadinessMessage(urls, statusReplies),
                                Aggregate(urls, nodeReplies, decode), CreatePaste(pasteBase, pasteReply));
      && outcome == r.outcome
      && db.users == old(db.users)[userId := r.user]
      && db.stats == if r.committed && old(db.stats).Some?
                     then Some(Counted(old(db.stats).value, |Aggregate(urls, nodeReplies, decode)|))
                     else old(db.stats)
    ensures db.order == if userId in old(db.users) then old(db.order) else old(db.order) + [userId]
    ensures db.keys == old(db.keys)
  {
    var user := GetOrCreateUser(db, userId, now);
    if user.isBanned {
      BannedStep(user, now, FirstNotReady(statusReplies) == |urls|, ReadinessMessage(urls, statusReplies),
                 Aggregate(urls, nodeReplies, decode), CreatePaste(pasteBase, pasteReply));
      return Banned;
    }
    outcome := SearchAdmitted(db, user, now, urls, statusReplies, nodeReplies, decode, pasteBase, pasteReply);
    UpdateTwice(old(db.users), userId, user, db.users[userId]);
  }

  lemma BannedStep(u: User, now: int, ready: bool, diagnostic: string, results: seq<string>, pasteUrl: string)
    requires u.isBanned
    ensures SearchStep(u, now, ready, diagnostic, results, pasteUrl) == SearchResult(Banned, u, false)
  {
  }

  /**
   * `search_cmd` past the ban check, for the requester's stored record
   * `user`: demotion, the quota, the readiness check, then the queued search.
   */
  method SearchAdmitted(db: Store, user: User, now: int,
                        urls: seq<string>, statusReplies: seq<StatusReply>, nodeReplies: seq<NodeReply>,
                        decode: string -> Option<string>, pasteBase: string, pasteReply: PasteReply)
    returns (outcome: SearchOutcome)
    requires db.Valid() && |statusReplies| == |urls| && |nodeReplies| == |urls|
    requires !user.isBanned && user.userId in db.users && db.users[user.userId] == user
    modifies db`users, db`stats
    ensures db.Valid()
    ensures var r := SearchStep(user, now, FirstNotReady(statusReplies) == |urls|, ReadinessMessage(urls, statusReplies),
                                Aggregate(urls, nodeReplies, decode), CreatePaste(pasteBase, pasteReply));
      && outcome == r.outcome
      && db.users == old(db.users)[user.userId := r.user]
      && db.stats == if r.committed && old(db.stats).Some?
                     then Some(Counted(old(db.stats).value, |Aggregate(urls, nodeReplies, decode)|))
                     else old(db.stats)
  {
    var current := ExpirePremium(db, user, now);
    ghost var reset := ResetLimits(current, now);
    var searchesToday := db.CheckAndResetLimits(current, now);
    UpdateTwice(old(db.users), user.userId, current, reset);
    outcome := SearchWithinQuota(db, user, now, current, searchesToday,
                                 urls, statusReplies, nodeReplies, decode, pasteBase, pasteReply);
    UpdateTwice(old(db.users), user.userId, reset, db.users[user.userId]);
  }

  /**
   * `search_cmd` once the requester's record is demoted if due and its daily
   * counter reset (`current` is the demoted record, `searchesToday` the count
   * the reset left): the quota, the readiness check, then the queued search.
   */
  method SearchWithinQuota(db: Store, user: User, now: int, current: User, searchesToday: nat,
                           urls: seq<string>, statusReplies: seq<StatusReply>, nodeReplies: seq<NodeReply>,
                           decode: string -> Option<string>, pasteBase: string, pasteReply: PasteReply)
    returns (outcome: SearchOutcome)
    requires db.Valid() && |statusReplies| == |urls| && |nodeReplies| == |urls|
    requires !user.isBanned && current == Demote(user, now)
    requires user.userId in db.users && db.users[user.userId] == ResetLimits(current, now)
    requires searchesToday == ResetLimits(current, now).searchesToday
    modifies db`users, db`stats
    ensures db.Valid()
    ensures var r := SearchStep(user, now, FirstNotReady(statusReplies) == |urls|, ReadinessMessage(urls, statusReplies),
                                Aggregate(urls, nodeReplies, decode), CreatePaste(pasteBase, pasteReply));
      && outcome == r.outcome
      && db.users == old(db.users)[user.userId := r.user]
      && db.stats == if r.committed && old(db.stats).Some?
                     then Some(Counted(old(db.stats).value, |Aggregate(urls, nodeReplies, decode)|))
                     else old(db.stats)
  {
    ghost var results := Aggregate(urls, nodeReplies, decode);
    ghost var link := CreatePaste(pasteBase, pasteReply);
    StepCases(user, now, FirstNotReady(statusReplies) == |urls|, ReadinessMessage(urls, statusReplies), results, link);
    var limit := DailyLimit(current.tier);
    if searchesToday >= limit {
      UpdateSame(db.users, user.userId);
      return LimitReached(limit);
    }
    var ready, message := CheckApiStatus(urls, statusReplies);
    if !ready {
      UpdateSame(db.users, user.userId);
      return NotReady(message);
    }
    ghost var reset := ResetLimits(current, now);
    UpdateSame(db.users, user.userId);
    outcome := ServeQuery(db, user.userId, ResultDepth(current.tier), urls, nodeReplies, decode, pasteBase, pasteReply);
    if Commits(outcome.delivery) {
      assert db.users == old(db.users)[user.userId := reset.(searchesToday := reset.searchesToday + 1)];
    } else {
      assert db.users == old(db.users)[user.userId := reset];
    }
  }

  /** The four ways `search_cmd` can end, read off `SearchStep`. */
  lemma StepCases(u: User, now: int, ready: bool, diagnostic: string, results: seq<string>, pasteUrl: string)
    ensures var r := SearchStep(u, now, ready, diagnostic, results, pasteUrl);
      var d := Demote(u, now);
      var reset := ResetLimits(d, now);
      var limit := DailyLimit(d.tier);
      var delivery := Deliver(results, pasteUrl);
      && (u.isBanned ==> r == SearchResult(Banned, u, false))
      && (!u.isBanned && reset.searchesToday >= limit ==> r == SearchResult(LimitReached(limit), reset, false))
      && (!u.isBanned && reset.searchesToday < limit && !ready ==>
            r == SearchResult(NotReady(diagnostic), reset, false))
      && (!u.isBanned && reset.searchesToday < limit && ready ==>
            r == SearchResult(Searched(ResultDepth(d.tier), delivery),
                              if Commits(delivery) then reset.(searchesToday := reset.searchesToday + 1) else reset,
                              Commits(delivery)))
  {
  }

  /**
   * The queued part of `search_cmd`: fetch, deliver, and count the search
   * when real results went out.
   */
  method ServeQuery(db: Store, userId: int, depth: nat, urls: seq<string>, nodeReplies: seq<NodeReply>,
                    decode: string -> Option<string>, pasteBase: string, pasteReply: PasteReply)
    returns (outcome: SearchOutcome)
    requires db.Valid() && |nodeReplies| == |urls|
    modifies db`users, db`stats
    ensures db.Valid()
    ensures outcome == Searched(depth, Deliver(Aggregate(urls, nodeReplies, decode), CreatePaste(pasteBase, pasteReply)))
    ensures !Commits(outcome.delivery) ==> db.users == old(db.users) && db.stats == old(db.stats)
    ensures Commits(outcome.delivery) && userId in old(db.users) ==>
      db.users == old(db.users)[userId := old(db.users)[userId].(searchesToday := old(db.users)[userId].searchesToday + 1)]
    ensures Commits(outcome.delivery) && userId !in old(db.users) ==> db.users == old(db.users)
    ensures Commits(outcome.delivery) ==>
      db.stats == if old(db.stats).Some? then Some(Counted(old(db.stats).value, |Aggregate(urls, nodeReplies, decode)|))
                  else None
  {
    var results := FetchSearchResults(urls, nodeReplies, decode);
    var delivery := DeliverResults(results, pasteBase, pasteReply);
    outcome := Searched(depth, delivery);
    if Commits(delivery) {
      db.IncrementSearchUsage(userId, |results|);
    }
  }

  /** When every node fails, the search reports the first node's failure line and uses no quota. */
  lemma AllNodesDownReportsFirstNode(urls: seq<string>, replies: seq<NodeReply>,
                                     decode: string -> Option<string>, pasteUrl: string)
    requires |replies| == |urls| && |urls| > 0
    requires forall i :: 0 <= i < |replies| ==> replies[i].Unreachable? || replies[i].code != 200
    ensures |Aggregate(urls, replies, decode)| == |urls|
    ensures Deliver(Aggregate(urls, replies, decode), pasteUrl)
         == AllFailed(NodeLines(urls[0], replies[0], decode)[0])
    ensures !Commits(Deliver(Aggregate(urls, replies, decode), pasteUrl))
  {
    FailingNodesAggregate(urls, replies, decode);
    DeliverMeets(Aggregate(urls, replies, decode), pasteUrl, Deliver(Aggregate(urls, replies, decode), pasteUrl));
  }

  /** Failing nodes each add their one failure line, and every such line reads as a failure. */
  lemma {:induction false} FailingNodesAggregate(urls: seq<string>, replies: seq<NodeReply>,
                                                 decode: string -> Option<string>)
    requires |replies| == |urls|
    requires forall i :: 0 <= i < |replies| ==> replies[i].Unreachable? || replies[i].code != 200
    ensures |Aggregate(urls, replies, decode)| == |urls|
    ensures |urls| > 0 ==> Aggregate(urls, replies, decode)[0] == NodeLines(urls[0], replies[0], decode)[0]
    ensures AllFailures(Aggregate(urls, replies, decode))
  {
    if urls != [] {
      var n := |urls| - 1;
      FailingNodesAggregate(urls[..n], replies[..n], decode);
      AggregateSnoc(urls, replies, decode);
      FailureLinesAreFailures(urls[n], replies[n], decode);
      var front := Aggregate(urls[..n], replies[..n], decode);
      var last := NodeLines(urls[n], replies[n], decode);
      var all := Aggregate(urls, replies, decode);
      assert all == front + last;
      forall i | 0 <= i < |all|
        ensures IsFailureLine(all[i])
      {
        if i < |front| {
          assert all[i] == front[i];
        } else {
          assert all[i] == last[0];
        }
      }
      if n > 0 {
        assert urls[..n][0] == urls[0] && replies[..n][0] == replies[0];
      }
    }
  }

  /** The line a failing node adds reads as a failure ("Error" or "Failed" occurs in it). */
  lemma FailureLinesAreFailures(url: string, reply: NodeReply, decode: string -> Option<string>)
    requires reply.Unreachable? || reply.code != 200
    ensures |NodeLines(url, reply, decode)| == 1 && IsFailureLine(NodeLines(url, reply, decode)[0])
  {
    FailingNodeAddsOneLine(url, reply, decode);
    var line := NodeLines(url, reply, decode)[0];
    if reply.Unreachable? {
      assert line[0..6] == "Failed";
      ContainsAt(line, "Failed", 0);
    } else {
      assert line[0..5] == "Error";
      ContainsAt(line, "Error", 0);
    }
  }

  /** A backend error reported by a node also reads as a failure. */
  lemma BackendErrorIsFailure(message: string)
    ensures IsFailureLine(BackendErrorPrefix + message)
  {
    var line := BackendErrorPrefix + message;
    assert line[8..13] == "Error";
    ContainsAt(line, "Error", 8);
  }

  // ---------------------------------------------------------------------------
  // /redeem

  /** The account after redeeming a key worth `days` days at time `now`. */
  function Redeemed(u: User, days: nat, now: int): (r: User)
    ensures r.tier == Premium && r.notifiedExpiry == Some(false)
    ensures r.premiumExpiry.Some? && r.premiumExpiry.value >= now + days * Day
    ensures u.premiumExpiry.Some? ==> r.premiumExpiry.value >= u.premiumExpiry.value + days * Day
    ensures r.premiumExpiry.value == now + days * Day
         || (u.premiumExpiry.Some? && r.premiumExpiry.value == u.premiumExpiry.value + days * Day)
    ensures r.(tier := u.tier, premiumExpiry := u.premiumExpiry, notifiedExpiry := u.notifiedExpiry) == u
  {
    u.(tier := Premium, premiumExpiry := Some(ExtendedExpiry(u.premiumExpiry, now, days * Day)),
       notifiedExpiry := Some(false))
  }

  /** How `redeem_cmd` ends. */
  datatype RedeemReply =
    | KeyRejected             // no unused key with that string
    | PremiumGranted(days: nat)
    | ExpiryOutOfRange        // the new expiry overflows `timedelta` or `datetime`: the handler raises

  /**
   * `redeem_cmd`: only an unused key document with the (stripped) string is
   * taken; the first one is marked used by the user, and the user is created
   * if new. Those two writes happen before the new expiry is computed, so
   * when that overflows they stay and the account is not upgraded; otherwise
   * the user becomes premium with the key's days added.
   */
  method RedeemCmd(db: Store, userId: int, keyText: string, now: int) returns (reply: RedeemReply)
    requires db.Valid()
    modifies db
    ensures db.Valid()
    ensures reply.KeyRejected? <==> FirstUnused(old(db.keys), Strip(keyText)).None?
    ensures reply.KeyRejected? ==> db.users == old(db.users) && db.order == old(db.order) && db.keys == old(db.keys)
    ensures !reply.KeyRejected? ==>
      var i := FirstUnused(old(db.keys), Strip(keyText)).value;
      var key := old(db.keys)[i];
      var u := if userId in old(db.users) then old(db.users)[userId] else NewUser(userId, None, now);
      && db.keys == old(db.keys)[i := MarkUsed(key, userId)]
      && db.order == (if userId in old(db.users) then old(db.order) else old(db.order) + [userId])
      && (ExtensionFits(u.premiumExpiry, now, key.durationDays) ==>
            reply == PremiumGranted(key.durationDays)
            && db.users == old(db.users)[userId := Redeemed(u, key.durationDays, now)])
      && (!ExtensionFits(u.premiumExpiry, now, key.durationDays) ==>
            reply == ExpiryOutOfRange && db.users == old(db.users)[userId := u])
    ensures db.stats == old(db.stats)
  {
    var keyString := Strip(keyText);
    var found := FirstUnused(db.keys, keyString);
    if found.None? {
      return KeyRejected;
    }
    var i := found.value;
    var key := db.keys[i];
    db.keys := db.keys[i := MarkUsed(key, userId)];
    var user: User;
    if userId in db.users {
      user := db.users[userId];
      UpdateSame(db.users, userId);
    } else {
      user := db.CreateUser(userId, None, now);
    }
    if !ExtensionFits(user.premiumExpiry, now, key.durationDays) {
      return ExpiryOutOfRange;
    }
    UpdateTwice(old(db.users), userId, user, Redeemed(user, key.durationDays, now));
    db.users := db.users[userId := Redeemed(user, key.durationDays, now)];
    reply := PremiumGranted(key.durationDays);
  }

  /** A key string held by a single unused document redeems once; the next attempt fails. */
  lemma SecondRedeemFails(keys: seq<AccessKey>, s: string, userId: int)
    requires CountUnused(keys, s) == 1
    ensures FirstUnused(keys, s).Some?
    ensures FirstUnused(keys[FirstUnused(keys, s).value := MarkUsed(keys[FirstUnused(keys, s).value], userId)], s).None?
  {
    FirstUnusedIffAny(keys, s);
    var i := FirstUnused(keys, s).value;
    MarkUsedConsumesOne(keys, s, i, userId);
    FirstUnusedIffAny(keys[i := MarkUsed(keys[i], userId)], s);
  }

  // ---------------------------------------------------------------------------
  // /start

  /** The referrer a new user's `/start` argument names, if it may be credited. */
  function ReferrerFrom(arg: Option<string>, userId: int): Option<int> {
    if arg.Some? && IsDigits(arg.value) && DigitsValue(arg.value) != userId then Some(DigitsValue(arg.value))
    else None
  }

  /**
   * The referral link `?start=<id>` that `/start` and `/account` hand out
   * credits its owner when someone else opens it, and never its owner.
   */
  lemma ReferralLinkCreditsOwner(owner: nat, newcomer: int)
    ensures ReferrerFrom(Some(NatToString(owner)), newcomer) == if newcomer == owner then None else Some(owner)
  {
    DigitsValueOfNatToString(owner);
  }

  /**
   * `start_cmd`: a returning user changes nothing; a new user is created,
   * after crediting the referrer their argument names. `welcomed` says the
   * welcome went out; `congratulate` is the referrer to congratulate, when the
   * referral earned the reward. A named referrer too wide for a stored
   * integer makes the referrer lookup fail: nothing is written and nothing
   * is sent.
   */
  method StartCmd(db: Store, userId: int, startArg: Option<string>, now: int)
    returns (welcomed: bool, congratulate: Option<int>)
    requires db.Valid()
    modifies db
    ensures db.Valid()
    ensures userId in old(db.users) ==>
      welcomed && congratulate == None && db.users == old(db.users) && db.order == old(db.order)
    ensures userId !in old(db.users) && ReferrerFrom(startArg, userId).Some?
            && ReferrerFrom(startArg, userId).value > MaxStoredInt ==>
      !welcomed && congratulate == None && db.users == old(db.users) && db.order == old(db.order)
    ensures userId !in old(db.users) && !(ReferrerFrom(startArg, userId).Some?
            && ReferrerFrom(startArg, userId).value > MaxStoredInt) ==>
      var ref := ReferrerFrom(startArg, userId);
      var credited := if ref.Some? && ref.value in old(db.users)
                      then old(db.users)[ref.value := Referred(old(db.users)[ref.value], now)]
                      else old(db.users);
      && db.users == credited[userId := NewUser(userId, ref, now)]
      && db.order == old(db.order) + [userId]
      && (congratulate.Some? <==>
            ref.Some? && ref.value in old(db.users) && RewardDue(old(db.users)[ref.value].referralCount + 1))
      && (congratulate.Some? ==> congratulate == ref)
      && welcomed
    ensures db.keys == old(db.keys) && db.stats == old(db.stats)
  {
    congratulate := None;
    if userId in db.users {
      return true, None;
    }
    var referrer := ReferrerFrom(startArg, userId);
    if referrer.Some? && referrer.value > MaxStoredInt {
      return false, None;
    }
    welcomed := true;
    if referrer.Some? {
      var rewarded := db.HandleReferral(referrer.value, now);
      if rewarded {
        congratulate := referrer;
      }
    }
    var _ := db.CreateUser(userId, referrer, now);
  }

  // ---------------------------------------------------------------------------
  // /account

  datatype TimeLeft = Remaining(days: nat, hours: nat, minutes: nat) | Expired

  datatype AccountInfo = AccountInfo(premium: bool, referrals: nat, referralsNeeded: nat, premiumEnds: Option<TimeLeft>)

  /** How many more referrals until the next reward: the next reward comes after exactly that many. */
  function ReferralsNeeded(count: nat): (n: nat)
    ensures 1 <= n <= ReferralBatch
    ensures RewardDue(count + n)
    ensures forall m :: count < m < count + n ==> !RewardDue(m)
  {
    ReferralBatch - count % ReferralBatch
  }

  /** The remaining premium time in whole days, hours and minutes, or `Expired`. */
  function TimeLeftAt(expiry: int, now: int): (t: TimeLeft)
    ensures t.Expired? <==> expiry <= now
    ensures t.Remaining? ==> t.hours < 24 && t.minutes < 60
    ensures t.Remaining? ==>
      var shown := t.days * Day + t.hours * 3600 + t.minutes * 60;
      shown <= expiry - now < shown + 60
  {
    if expiry > now then
      var diff := expiry - now;
      var seconds := diff % Day;
      Remaining(diff / Day, seconds / 3600, seconds % 3600 / 60)
    else
      Expired
  }

  /** `account_cmd`: tier, referrals and what they still need, and the premium time left. */
  method AccountCmd(db: Store, userId: int, now: int) returns (info: AccountInfo)
    requires db.Valid()
    modifies db
    ensures db.Valid()
    ensures userId in old(db.users) ==> db.users == old(db.users) && db.order == old(db.order)
    ensures userId !in old(db.users) ==>
      db.users == old(db.users)[userId := NewUser(userId, None, now)] && db.order == old(db.order) + [userId]
    ensures db.keys == old(db.keys) && db.stats == old(db.stats)
    ensures var u := db.users[userId];
      && info.premium == (u.tier == Premium)
      && info.referrals == u.referralCount
      && info.referralsNeeded == ReferralsNeeded(u.referralCount)
      && info.premiumEnds == (if u.tier == Premium && u.premiumExpiry.Some?
                              then Some(TimeLeftAt(u.premiumExpiry.value, now)) else None)
  {
    var user: User;
    if userId in db.users {
      user := db.users[userId];
    } else {
      user := db.CreateUser(userId, None, now);
    }
    var ends: Option<TimeLeft> := None;
    if user.tier == Premium && user.premiumExpiry.Some? {
      ends := Some(TimeLeftAt(user.premiumExpiry.value, now));
    }
    info := AccountInfo(user.tier == Premium, user.referralCount, ReferralsNeeded(user.referralCount), ends);
  }

  // ---------------------------------------------------------------------------
  // Premium expiry reminders

  /** The reminder query: premium, expiring within the next day, and not yet reminded. */
  predicate ExpiringSoon(u: User, now: int) {
    && u.tier == Premium && u.premiumExpiry.Some?
    && now < u.premiumExpiry.value <= now + Day
    && u.notifiedExpiry != Some(true)
  }

  /** The users the reminder query returns, in the collection's order. */
  function Expiring(order: seq<int>, users: map<int, User>, now: int): (sel: seq<int>)
    ensures forall id :: id in sel <==> id in order && id in users && ExpiringSoon(users[id], now)
    ensures |sel| <= |order|
  {
    if order == [] then []
    else
      var id := order[|order| - 1];
      Expiring(order[..|order| - 1], users, now) + (if id in users && ExpiringSoon(users[id], now) then [id] else [])
  }

  /** `a` is `b` with some elements left out and the rest kept in order. */
  predicate InOrderWithin(a: seq<int>, b: seq<int>)
    decreases |b|
  {
    a == [] ||
    (b != [] && (InOrderWithin(a, b[..|b| - 1])
                 || (a[|a| - 1] == b[|b| - 1] && InOrderWithin(a[..|a| - 1], b[..|b| - 1]))))
  }

  /** The reminder query returns the selected users in the collection's order. */
  lemma {:induction false} ExpiringKeepsOrder(order: seq<int>, users: map<int, User>, now: int)
    ensures InOrderWithin(Expiring(order, users, now), order)
  {
    if order != [] {
      var n := |order| - 1;
      var before := Expiring(order[..n], users, now);
      ExpiringKeepsOrder(order[..n], users, now);
      if order[n] in users && ExpiringSoon(users[order[n]], now) {
        assert Expiring(order, users, now) == before + [order[n]];
        assert (before + [order[n]])[..|before|] == before;
      } else {
        assert Expiring(order, users, now) == before;
      }
    }
  }

  /** One reminder attempt per selected user, in order, each followed by a one-second pause. */
  function Reminders(sel: seq<int>, reachable: set<int>): seq<Event> {
    if sel == [] then []
    else
      var id := sel[|sel| - 1];
      Reminders(sel[..|sel| - 1], reachable) + [Send(id, id in reachable), Pause(ReminderPauseMs)]
  }

  /** The pass writes to each selected user in turn and sleeps one second per user. */
  lemma {:induction false} RemindersMeasures(sel: seq<int>, reachable: set<int>)
    ensures Recipients(Reminders(sel, reachable)) == sel
    ensures TotalPauseMs(Reminders(sel, reachable)) == ReminderPauseMs * |sel|
  {
    if sel != [] {
      var n := |sel| - 1;
      var id := sel[n];
      var pair := [Send(id, id in reachable), Pause(ReminderPauseMs)];
      RemindersMeasures(sel[..n], reachable);
      MeasuresOfConcat(Reminders(sel[..n], reachable), pair, ReminderPauseMs);
      ReminderPairMeasures(id, id in reachable);
      assert sel == sel[..n] + [id];
    }
  }

  lemma ReminderPairMeasures(id: int, delivered: bool)
    ensures var pair := [Send(id, delivered), Pause(ReminderPauseMs)];
      Recipients(pair) == [id] && TotalPauseMs(pair) == ReminderPauseMs
  {
    var pair := [Send(id, delivered), Pause(ReminderPauseMs)];
    var one := pair[..1];
    assert one == [Send(id, delivered)] && one[..0] == [];
    assert Recipients(one[..0]) == [] && TotalPauseMs(one[..0]) == 0;
    assert Recipients(one) == [id] && TotalPauseMs(one) == 0;
    assert Recipients(pair) == Recipients(one) && TotalPauseMs(pair) == TotalPauseMs(one) + ReminderPauseMs;
  }

  /** The users after the reminders to `sel` went out: those reached are marked as reminded. */
  function MarkReminded(users: map<int, User>, sel: seq<int>, reachable: set<int>): (r: map<int, User>)
    ensures r.Keys == users.Keys
  {
    if sel == [] then users
    else
      var before := MarkReminded(users, sel[..|sel| - 1], reachable);
      var id := sel[|sel| - 1];
      if id in reachable && id in before then before[id := before[id].(notifiedExpiry := Some(true))] else before
  }

  /** Marking touches only the flag, and only of the selected users that were reached. */
  lemma {:induction false} MarkRemindedPointwise(users: map<int, User>, sel: seq<int>, reachable: set<int>, id: int)
    requires id in users
    ensures MarkReminded(users, sel, reachable)[id]
         == if id in sel && id in reachable then users[id].(notifiedExpiry := Some(true)) else users[id]
  {
    if sel != [] {
      var n := |sel| - 1;
      MarkRemindedPointwise(users, sel[..n], reachable, id);
      assert sel == sel[..n] + [sel[n]];
      assert id in sel <==> id in sel[..n] || id == sel[n];
    }
  }

  /**
   * One pass of `check_premium_expiries`: each selected user is sent a
   * reminder, and only those the message reached are marked as reminded.
   */
  method CheckPremiumExpiries(db: Store, now: int, reachable: set<int>) returns (log: seq<Event>)
    requires db.Valid()
    modifies db`users
    ensures db.Valid()
    ensures log == Reminders(Expiring(old(db.order), old(db.users), now), reachable)
    ensures db.users == MarkReminded(old(db.users), Expiring(old(db.order), old(db.users), now), reachable)
  {
    var selected := Expiring(db.order, db.users, now);
    ghost var before := db.users;
    log := [];
    for i := 0 to |selected|
      invariant db.users == MarkReminded(before, selected[..i], reachable)
      invariant log == Reminders(selected[..i], reachable)
    {
      var id := selected[i];
      assert selected[..i + 1][..i] == selected[..i];
      if id in reachable && id in db.users {
        db.users := db.users[id := db.users[id].(notifiedExpiry := Some(true))];
      }
      log := log + [Send(id, id in reachable), Pause(ReminderPauseMs)];
    }
    assert selected[..|selected|] == selected;
    forall id | id in db.users
      ensures db.users[id].userId == id
    {
      MarkRemindedPointwise(before, selected, reachable, id);
    }
  }

  /**
   * After a pass, exactly the users the query selected and the message reached
   * carry the reminded flag; every other record is as it was.
   */
  lemma ExpiryPassMarks(order: seq<int>, users: map<int, User>, now: int, reachable: set<int>, id: int)
    requires id in users
    ensures MarkReminded(users, Expiring(order, users, now), reachable)[id]
         == if id in order && ExpiringSoon(users[id], now) && id in reachable
            then users[id].(notifiedExpiry := Some(true)) else users[id]
  {
    MarkRemindedPointwise(users, Expiring(order, users, now), reachable, id);
  }

  /** A reminded user is not selected again, at any later time, until a redeem clears the flag. */
  lemma RemindedAtMostOnce(u: User, later: int, days: nat, now: int)
    ensures !ExpiringSoon(u.(notifiedExpiry := Some(true)), later)
    ensures Redeemed(u, days, now).notifiedExpiry != Some(true)
  {
  }
}
