/**
 * The operator commands (modules/admin_handlers.py): `/genkey`, `/ban`,
 * `/unban` and `/broadcast`. Each is ignored unless the sender is the
 * configured operator; the broadcast's detached task is run to completion
 * and recorded as a log of sends and pauses.
 */
module AdminHandlers {
  import opened Wrappers
  import opened Text
  import opened Ledger
  import opened Outbox
  import ApiClient
  import UserHandlers

  /** Every generated key starts with this. */
  const KeyPrefix: string := "NEXUS-"
  /** Pause after every broadcast send, in milliseconds. */
  const SendPauseMs: nat := 1500
  /** Extra pause after every full batch of sends, in milliseconds. */
  const BatchPauseMs: nat := 10000
  const BatchSize: nat := 50

  /** The operator's reply, when the sender is the operator. */
  datatype AdminReply =
    | KeyIssued(key: string, days: nat)
    | BanApplied(target: int)
    | UnbanApplied(target: int)
    | UserNotFound
    | NoUsers
    | BroadcastStarted(total: nat)

  // ---------------------------------------------------------------------------
  // /genkey

  predicate IsUpperHex(c: char) {
    '0' <= c <= '9' || 'A' <= c <= 'F'
  }

  /** The first eight characters of an upper-cased UUID4: upper-case hex digits. */
  predicate IsKeySuffix(s: string) {
    |s| == 8 && forall k :: 0 <= k < |s| ==> IsUpperHex(s[k])
  }

  /** The key document `genkey_cmd` inserts; it has no `used_by` yet. */
  function IssuedKey(suffix: string, days: nat): (k: AccessKey)
    ensures StartsWith(k.keyString, KeyPrefix) && |k.keyString| == |KeyPrefix| + |suffix|
    ensures k.keyString[|KeyPrefix|..] == suffix
    ensures k.durationDays == days && !k.isUsed && k.usedBy.None?
  {
    AccessKey(KeyPrefix + suffix, days, false, None)
  }

  /**
   * `genkey_cmd`: for the operator, one new unused key of `days` days is
   * appended to the keys collection; anyone else changes nothing. A day count
   * too wide for a stored integer makes the insert fail: no key and no reply.
   * The random suffix is an input.
   */
  method GenKeyCmd(db: Store, sender: int, admin: int, days: nat, suffix: string) returns (reply: Option<AdminReply>)
    requires db.Valid() && IsKeySuffix(suffix)
    modifies db`keys
    ensures db.Valid()
    ensures sender != admin ==> reply == None && db.keys == old(db.keys)
    ensures sender == admin && days > MaxStoredInt ==> reply == None && db.keys == old(db.keys)
    ensures sender == admin && days <= MaxStoredInt ==>
      reply == Some(KeyIssued(KeyPrefix + suffix, days)) && db.keys == old(db.keys) + [IssuedKey(suffix, days)]
  {
    if sender != admin || days > MaxStoredInt {
      return None;
    }
    var key := IssuedKey(suffix, days);
    db.keys := db.keys + [key];
    reply := Some(KeyIssued(key.keyString, days));
  }

  /** A generated key has no surrounding whitespace, so the stripped text of `/redeem <key>` is the key itself. */
  lemma IssuedKeySurvivesStrip(suffix: string)
    requires IsKeySuffix(suffix)
    ensures Strip(KeyPrefix + suffix) == KeyPrefix + suffix
  {
    var s := KeyPrefix + suffix;
    assert !IsSpace(s[0]) && !IsSpace(s[|s| - 1]);
    assert SkipSpaces(s, 0) == 0 && BackOverSpaces(s, 0, |s|) == |s|;
  }

  /**
   * A freshly issued key whose string no other unused document carries is
   * accepted by the first redeem of that string, and by no second one.
   */
  lemma IssuedKeyRedeemsOnce(keys: seq<AccessKey>, suffix: string, days: nat, userId: int)
    requires CountUnused(keys, KeyPrefix + suffix) == 0
    ensures FirstUnused(keys + [IssuedKey(suffix, days)], KeyPrefix + suffix) == Some(|keys|)
    ensures FirstUnused((keys + [IssuedKey(suffix, days)])[|keys| := MarkUsed(IssuedKey(suffix, days), userId)],
                        KeyPrefix + suffix).None?
  {
    var s := KeyPrefix + suffix;
    var k := IssuedKey(suffix, days);
    FirstUnusedIffAny(keys, s);
    FirstUnusedAfterNone(keys, k, s);
    MarkUsedConsumesOne(keys + [k], s, |keys|, userId);
    IssueAddsOne(keys, k, s);
    FirstUnusedIffAny((keys + [k])[|keys| := MarkUsed(k, userId)], s);
  }

  // ---------------------------------------------------------------------------
  // /ban and /unban

  /**
   * `update_one({"user_id": target}, {"$set": {"is_banned": flag}})`: the
   * result's `modified_count` is 1 only when the document exists and its
   * flag actually changes.
   */
  method SetBanFlag(db: Store, target: int, flag: bool) returns (modifiedCount: nat)
    requires db.Valid()
    modifies db`users
    ensures db.Valid()
    ensures modifiedCount == if target in old(db.users) && old(db.users)[target].isBanned != flag then 1 else 0
    ensures target in old(db.users) ==> db.users == old(db.users)[target := old(db.users)[target].(isBanned := flag)]
    ensures target !in old(db.users) ==> db.users == old(db.users)
  {
    if target !in db.users {
      return 0;
    }
    var before := db.users[target];
    db.users := db.users[target := before.(isBanned := flag)];
    modifiedCount := if before.isBanned != flag then 1 else 0;
  }

  /**
   * `ban_cmd`: "not found" whenever nothing was modified, an already banned
   * user included. A target id too wide for a stored integer makes the update
   * fail: nothing changes and there is no reply.
   */
  method BanCmd(db: Store, sender: int, admin: int, target: int) returns (reply: Option<AdminReply>)
    requires db.Valid()
    modifies db`users
    ensures db.Valid()
    ensures sender != admin ==> reply == None && db.users == old(db.users)
    ensures sender == admin && target > MaxStoredInt ==> reply == None && db.users == old(db.users)
    ensures sender == admin && target <= MaxStoredInt && target in old(db.users) ==>
      db.users == old(db.users)[target := old(db.users)[target].(isBanned := true)]
    ensures sender == admin && target !in old(db.users) ==> db.users == old(db.users)
    ensures sender == admin && target <= MaxStoredInt ==>
      reply == if target in old(db.users) && !old(db.users)[target].isBanned then Some(BanApplied(target))
               else Some(UserNotFound)
  {
    if sender != admin || target > MaxStoredInt {
      return None;
    }
    var modified := SetBanFlag(db, target, true);
    reply := if modified > 0 then Some(BanApplied(target)) else Some(UserNotFound);
  }

  /** `unban_cmd`: the mirror image of `ban_cmd`. */
  method UnbanCmd(db: Store, sender: int, admin: int, target: int) returns (reply: Option<AdminReply>)
    requires db.Valid()
    modifies db`users
    ensures db.Valid()
    ensures sender != admin ==> reply == None && db.users == old(db.users)
    ensures sender == admin && target > MaxStoredInt ==> reply == None && db.users == old(db.users)
    ensures sender == admin && target <= MaxStoredInt && target in old(db.users) ==>
      db.users == old(db.users)[target := old(db.users)[target].(isBanned := false)]
    ensures sender == admin && target !in old(db.users) ==> db.users == old(db.users)
    ensures sender == admin && target <= MaxStoredInt ==>
      reply == if target in old(db.users) && old(db.users)[target].isBanned then Some(UnbanApplied(target))
               else Some(UserNotFound)
  {
    if sender != admin || target > MaxStoredInt {
      return None;
    }
    var modified := SetBanFlag(db, target, false);
    reply := if modified > 0 then Some(UnbanApplied(target)) else Some(UserNotFound);
  }

  /** Once banned, a user's `/search` is refused whatever the backend would answer. */
  lemma BannedUserIsRefused(users: map<int, User>, target: int, now: int,
                            urls: seq<string>, statusReplies: seq<ApiClient.StatusReply>,
                            nodeReplies: seq<ApiClient.NodeReply>, decode: string -> Option<string>,
                            pasteBase: string, pasteReply: ApiClient.PasteReply)
    requires target in users && |statusReplies| == |urls| && |nodeReplies| == |urls|
    ensures var banned := users[target := users[target].(isBanned := true)];
      var r := UserHandlers.SearchOf(banned, target, now, urls, statusReplies, nodeReplies, decode, pasteBase, pasteReply);
      r.outcome.Banned? && !r.committed && r.user == banned[target]
  {
    var banned := users[target := users[target].(isBanned := true)];
    UserHandlers.StepCases(banned[target], now, ApiClient.FirstNotReady(statusReplies) == |urls|,
                           ApiClient.ReadinessMessage(urls, statusReplies), ApiClient.Aggregate(urls, nodeReplies, decode),
                           ApiClient.CreatePaste(pasteBase, pasteReply));
  }

  // ---------------------------------------------------------------------------
  // /broadcast

  /** What round `i` (counted from 0) of the broadcast does: one send, then its pauses. */
  function Round(i: nat, to: int, delivered: bool): seq<Event> {
    [Send(to, delivered), Pause(SendPauseMs)] + (if (i + 1) % BatchSize == 0 then [Pause(BatchPauseMs)] else [])
  }

  /** The rounds for the recipients `rs`, in list order. */
  function Rounds(rs: seq<int>, reachable: set<int>): seq<Event> {
    if rs == [] then []
    else Rounds(rs[..|rs| - 1], reachable) + Round(|rs| - 1, rs[|rs| - 1], rs[|rs| - 1] in reachable)
  }

  /** How many of the sends reach their recipient. */
  function Delivered(rs: seq<int>, reachable: set<int>): (n: nat)
    ensures n <= |rs|
  {
    if rs == [] then 0
    else Delivered(rs[..|rs| - 1], reachable) + (if rs[|rs| - 1] in reachable then 1 else 0)
  }

  /**
   * `run_broadcast`: every recipient is tried once, in list order, a failed
   * send does not stop the loop, and the operator is sent the tally.
   */
  method RunBroadcast(recipients: seq<int>, reachable: set<int>, admin: int) returns (success: nat, log: seq<Event>)
    ensures success == Delivered(recipients, reachable) && success <= |recipients|
    ensures log == Rounds(recipients, reachable) + [Summary(admin, success, |recipients|)]
  {
    success := 0;
    log := [];
    for i := 0 to |recipients|
      invariant success == Delivered(recipients[..i], reachable)
      invariant log == Rounds(recipients[..i], reachable)
    {
      assert recipients[..i + 1][..i] == recipients[..i];
      var to := recipients[i];
      var delivered := to in reachable;
      if delivered {
        success := success + 1;
      }
      log := log + [Send(to, delivered)];
      log := log + [Pause(SendPauseMs)];
      if (i + 1) % BatchSize == 0 {
        log := log + [Pause(BatchPauseMs)];
      }
    }
    assert recipients[..|recipients|] == recipients;
    log := log + [Summary(admin, success, |recipients|)];
  }

  /** One round: one send to `to`, 1.5 s, and 10 s more after every fiftieth send. */
  lemma RoundMeasures(i: nat, to: int, delivered: bool)
    ensures var r := Round(i, to, delivered);
      && Recipients(r) == [to]
      && Deliveries(r) == (if delivered then 1 else 0)
      && PauseCount(r, SendPauseMs) == 1
      && PauseCount(r, BatchPauseMs) == (if (i + 1) % BatchSize == 0 then 1 else 0)
      && TotalPauseMs(r) == SendPauseMs + (if (i + 1) % BatchSize == 0 then BatchPauseMs else 0)
  {
    var one := [Send(to, delivered)];
    var two := one + [Pause(SendPauseMs)];
    assert one[..0] == [] && two[..1] == one;
    assert Recipients(one) == [to] && Recipients(two) == [to];
    assert PauseCount(one, SendPauseMs) == 0 && PauseCount(one, BatchPauseMs) == 0 && TotalPauseMs(one) == 0;
    assert Deliveries(one) == (if delivered then 1 else 0) && Deliveries(two) == Deliveries(one);
    assert PauseCount(two, SendPauseMs) == 1 && PauseCount(two, BatchPauseMs) == 0 && TotalPauseMs(two) == SendPauseMs;
    if (i + 1) % BatchSize == 0 {
      var three := two + [Pause(BatchPauseMs)];
      assert Round(i, to, delivered) == three && three[..2] == two;
    } else {
      assert Round(i, to, delivered) == two;
    }
  }

  /** Full batches among the first n sends grow by one exactly at the sends whose number is a multiple of 50. */
  lemma FullBatches(n: nat)
    requires n > 0
    ensures n / BatchSize == (n - 1) / BatchSize + (if n % BatchSize == 0 then 1 else 0)
  {
  }

  /**
   * The broadcast to n recipients writes to each in list order, counts its
   * successes, and sleeps n times 1.5 s plus floor(n / 50) times 10 s.
   */
  lemma {:induction false} BroadcastSchedule(rs: seq<int>, reachable: set<int>)
    ensures Recipients(Rounds(rs, reachable)) == rs
    ensures Deliveries(Rounds(rs, reachable)) == Delivered(rs, reachable)
    ensures PauseCount(Rounds(rs, reachable), SendPauseMs) == |rs|
    ensures PauseCount(Rounds(rs, reachable), BatchPauseMs) == |rs| / BatchSize
    ensures TotalPauseMs(Rounds(rs, reachable)) == SendPauseMs * |rs| + BatchPauseMs * (|rs| / BatchSize)
  {
    if rs != [] {
      var n := |rs| - 1;
      var front := Rounds(rs[..n], reachable);
      var last := Round(n, rs[n], rs[n] in reachable);
      BroadcastSchedule(rs[..n], reachable);
      MeasuresOfConcat(front, last, SendPauseMs);
      MeasuresOfConcat(front, last, BatchPauseMs);
      RoundMeasures(n, rs[n], rs[n] in reachable);
      FullBatches(|rs|);
      assert rs == rs[..n] + [rs[n]];
    }
  }

  /**
   * `broadcast_cmd` with its background task run to completion: the operator
   * gets the start notice and the broadcast goes to every stored user in
   * collection order; an empty collection gets "no users" and no broadcast.
   */
  method BroadcastCmd(db: Store, sender: int, admin: int, reachable: set<int>)
    returns (reply: Option<AdminReply>, log: seq<Event>)
    requires db.Valid()
    ensures sender != admin ==> reply == None && log == []
    ensures sender == admin && db.order == [] ==> reply == Some(NoUsers) && log == []
    ensures sender == admin && db.order != [] ==>
      && reply == Some(BroadcastStarted(|db.order|))
      && log == Rounds(db.order, reachable) + [Summary(admin, Delivered(db.order, reachable), |db.order|)]
  {
    if sender != admin {
      return None, [];
    }
    var recipients := db.order;
    if |recipients| == 0 {
      return Some(NoUsers), [];
    }
    reply := Some(BroadcastStarted(|recipients|));
    var _, sent := RunBroadcast(recipients, reachable, admin);
    log := sent;
  }
}
