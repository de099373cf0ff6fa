/**
 * The bot's store (modules/database.py): user accounts keyed by Telegram id,
 * the access keys, and the singleton statistics record, together with the
 * ledger rules applied to one record at a time (the rolling 24-hour usage
 * reset, usage commits, the referral reward). Time is an integer count of
 * seconds from `datetime.min` (0001-01-01 00:00:00).
 */
module Ledger {
  import opened Wrappers

  /** One day, in seconds. */
  const Day: int := 86400
  /** Every this many referrals earn a reward. */
  const ReferralBatch: nat := 5
  /** Length of the referral reward, in days. */
  const ReferralRewardDays: nat := 7
  /** The last whole second a `datetime` can hold: 9999-12-31 23:59:59. */
  const MaxTime: int := 3652059 * Day - 1
  /** The largest day count a `timedelta` accepts. */
  const MaxTimedeltaDays: nat := 999999999
  /** The largest integer a stored document or a query can carry (a signed 64-bit BSON integer). */
  const MaxStoredInt: int := 0x7FFF_FFFF_FFFF_FFFF

  datatype Tier = Free | Premium

  /** A user document. `notifiedExpiry` is absent until a redeem or a reminder writes it. */
  datatype User = User(
    userId: int,
    tier: Tier,
    premiumExpiry: Option<int>,
    searchesToday: nat,
    lastReset: int,
    referredBy: Option<int>,
    referralCount: nat,
    isBanned: bool,
    notifiedExpiry: Option<bool>)

  /** An access key document. */
  datatype AccessKey = AccessKey(keyString: string, durationDays: nat, isUsed: bool, usedBy: Option<int>)

  /** The `bot_stats` document; a counter may be missing from it. */
  datatype StatsDoc = StatsDoc(totalSearches: Option<int>, totalResults: Option<int>)

  /** What `/stats` reports. */
  datatype StatsReport = StatsReport(
    totalSearches: int, totalResults: int, totalUsers: nat, freeUsers: nat, premiumUsers: nat)

  // ---------------------------------------------------------------------------
  // Rules on one user record

  /** The record `create_user` inserts. */
  function NewUser(id: int, referrer: Option<int>, now: int): User {
    User(id, Free, None, 0, now, referrer, 0, false, None)
  }

  /** At least a day has passed since the usage counter was last reset. */
  predicate EpochElapsed(u: User, now: int) {
    now - u.lastReset >= Day
  }

  /**
   * The record after `check_and_reset_limits` at time `now`; the count that
   * call returns is the `searchesToday` of this record.
   */
  function ResetLimits(u: User, now: int): (r: User)
    ensures EpochElapsed(u, now) ==> r.searchesToday == 0 && r.lastReset == now
    ensures !EpochElapsed(u, now) ==> r == u
    ensures !EpochElapsed(r, now)
    ensures r.searchesToday <= u.searchesToday
    ensures r.(searchesToday := u.searchesToday, lastReset := u.lastReset) == u
  {
    if EpochElapsed(u, now) then u.(searchesToday := 0, lastReset := now) else u
  }

  /** A second check at the same instant sees the counter the first one left and writes nothing. */
  lemma ResetIdempotent(u: User, now: int)
    ensures ResetLimits(ResetLimits(u, now), now) == ResetLimits(u, now)
  {
  }

  /**
   * The premium expiry after adding `span` seconds to the later of `now` and the
   * current expiry (an absent expiry counts as `now`).
   */
  function ExtendedExpiry(expiry: Option<int>, now: int, span: nat): (e: int)
    ensures e >= now + span
    ensures expiry.Some? ==> e >= expiry.value + span
    ensures e == now + span || (expiry.Some? && e == expiry.value + span)
  {
    var base := expiry.GetOr(now);
    (if base < now then now else base) + span
  }

  /**
   * Adding `days` days to the later of `now` and `expiry` stays within the
   * range of `timedelta` and `datetime`; otherwise Python raises `OverflowError`.
   */
  predicate ExtensionFits(expiry: Option<int>, now: int, days: nat) {
    days <= MaxTimedeltaDays && ExtendedExpiry(expiry, now, days * Day) <= MaxTime
  }

  /** A referral count that earns the reward. */
  predicate RewardDue(count: nat) {
    count % ReferralBatch == 0
  }

  /** The referrer's record after one more referral at time `now`. */
  function Referred(u: User, now: int): (r: User)
    ensures r.referralCount == u.referralCount + 1
    ensures RewardDue(r.referralCount) ==>
      r.tier == Premium && r.premiumExpiry == Some(ExtendedExpiry(u.premiumExpiry, now, ReferralRewardDays * Day))
    ensures !RewardDue(r.referralCount) ==> r.tier == u.tier && r.premiumExpiry == u.premiumExpiry
    ensures r.(referralCount := u.referralCount, tier := u.tier, premiumExpiry := u.premiumExpiry) == u
  {
    var count := u.referralCount + 1;
    if RewardDue(count) then
      u.(referralCount := count, tier := Premium,
         premiumExpiry := Some(ExtendedExpiry(u.premiumExpiry, now, ReferralRewardDays * Day)))
    else
      u.(referralCount := count)
  }

  /** A referral never shortens premium: a reward leaves at least 7 more days than before. */
  lemma ReferralNeverShortensPremium(u: User, now: int)
    requires u.premiumExpiry.Some?
    ensures Referred(u, now).premiumExpiry.Some?
    ensures Referred(u, now).premiumExpiry.value >= u.premiumExpiry.value
  {
  }

  // ---------------------------------------------------------------------------
  // Statistics

  /** The counters as `get_stats` reports them: a missing counter reads as 0. */
  function SearchesOf(s: StatsDoc): int { s.totalSearches.GetOr(0) }
  function ResultsOf(s: StatsDoc): int { s.totalResults.GetOr(0) }

  /** The statistics record after one committed search that returned `resultsCount` lines. */
  function Counted(s: StatsDoc, resultsCount: nat): (r: StatsDoc)
    ensures r.totalSearches.Some? && r.totalResults.Some?
    ensures SearchesOf(r) == SearchesOf(s) + 1
    ensures ResultsOf(r) == ResultsOf(s) + resultsCount
    ensures SearchesOf(r) > SearchesOf(s) && ResultsOf(r) >= ResultsOf(s)
  {
    StatsDoc(Some(SearchesOf(s) + 1), Some(ResultsOf(s) + resultsCount))
  }

  function FreeIds(users: map<int, User>): set<int> {
    set id | id in users && users[id].tier == Free
  }

  function PremiumIds(users: map<int, User>): set<int> {
    set id | id in users && users[id].tier == Premium
  }

  /** Every user is counted as exactly one of free and premium. */
  lemma {:induction false} TierCountsPartition(users: map<int, User>)
    ensures |FreeIds(users)| + |PremiumIds(users)| == |users|
  {
    var f, p := FreeIds(users), PremiumIds(users);
    assert f * p == {};
    forall id | id in users.Keys
      ensures id in f + p
    {
      if users[id].tier == Free { assert id in f; } else { assert id in p; }
    }
    assert f + p == users.Keys;
    assert |f + p| + |f * p| == |f| + |p|;
  }

  // ---------------------------------------------------------------------------
  // The keys collection

  /** A key document that `find_one({"key_string": s, "is_used": False})` matches. */
  predicate Redeemable(k: AccessKey, s: string) {
    k.keyString == s && !k.isUsed
  }

  /** A key document after redemption by `userId`. */
  function MarkUsed(k: AccessKey, userId: int): AccessKey {
    k.(isUsed := true, usedBy := Some(userId))
  }

  /** Index of the first matching document, as `find_one` returns it. */
  function FirstUnused(keys: seq<AccessKey>, s: string): (r: Option<nat>)
    ensures r.Some? ==> r.value < |keys| && Redeemable(keys[r.value], s)
    ensures r.Some? ==> forall j :: 0 <= j < r.value ==> !Redeemable(keys[j], s)
    ensures r.None? ==> forall j :: 0 <= j < |keys| ==> !Redeemable(keys[j], s)
  {
    if keys == [] then None
    else if Redeemable(keys[0], s) then Some(0)
    else match FirstUnused(keys[1..], s)
      case None => None
      case Some(i) => Some(i + 1)
  }

  /** Number of documents that can still be redeemed with the string `s`. */
  function CountUnused(keys: seq<AccessKey>, s: string): nat {
    if keys == [] then 0
    else (if Redeemable(keys[0], s) then 1 else 0) + CountUnused(keys[1..], s)
  }

  /** A redeem finds a document exactly when one is still unused. */
  lemma {:induction false} FirstUnusedIffAny(keys: seq<AccessKey>, s: string)
    ensures FirstUnused(keys, s).Some? <==> CountUnused(keys, s) > 0
  {
    if keys != [] {
      FirstUnusedIffAny(keys[1..], s);
    }
  }

  /** Redeeming one document uses up exactly one redemption of its string. */
  lemma {:induction false} MarkUsedConsumesOne(keys: seq<AccessKey>, s: string, i: nat, userId: int)
    requires i < |keys| && Redeemable(keys[i], s)
    ensures CountUnused(keys[i := MarkUsed(keys[i], userId)], s) == CountUnused(keys, s) - 1
  {
    var keys' := keys[i := MarkUsed(keys[i], userId)];
    if i > 0 {
      assert keys'[1..] == keys[1..][i - 1 := MarkUsed(keys[i], userId)];
      MarkUsedConsumesOne(keys[1..], s, i - 1, userId);
    } else {
      assert keys'[1..] == keys[1..];
    }
  }

  /** With no match among `keys`, a redeem finds the appended document when it matches. */
  lemma {:induction false} FirstUnusedAfterNone(keys: seq<AccessKey>, k: AccessKey, s: string)
    requires FirstUnused(keys, s).None? && Redeemable(k, s)
    ensures FirstUnused(keys + [k], s) == Some(|keys|)
  {
    if keys == [] {
      assert keys + [k] == [k];
    } else {
      assert (keys + [k])[1..] == keys[1..] + [k];
      FirstUnusedAfterNone(keys[1..], k, s);
    }
  }

  /** Issuing a key adds one redemption of its string and none of any other. */
  lemma {:induction false} IssueAddsOne(keys: seq<AccessKey>, k: AccessKey, s: string)
    ensures CountUnused(keys + [k], s) == CountUnused(keys, s) + (if Redeemable(k, s) then 1 else 0)
  {
    if keys != [] {
      assert (keys + [k])[1..] == keys[1..] + [k];
      IssueAddsOne(keys[1..], k, s);
    } else {
      assert (keys + [k])[1..] == [];
    }
  }

  /** Writing back the record a user already has changes nothing. */
  lemma UpdateSame(users: map<int, User>, id: int)
    requires id in users
    ensures users[id := users[id]] == users
  {
  }

  /** Writing the same user twice leaves only the second write. */
  lemma UpdateTwice(users: map<int, User>, id: int, first: User, second: User)
    ensures users[id := first][id := second] == users[id := second]
  {
  }

  // ---------------------------------------------------------------------------
  // The store

  class Store {
    /** The users collection, by `user_id`. */
    var users: map<int, User>
    /** The users collection's natural order (insertion order), as `find` returns it. */
    var order: seq<int>
    /** The keys collection, in insertion order. */
    var keys: seq<AccessKey>
    /** The stats collection's `bot_stats` document, if present. */
    var stats: Option<StatsDoc>

    ghost predicate Valid()
      reads this
    {
      && (forall id :: id in users ==> users[id].userId == id)
      && (forall id :: id in users <==> id in order)
      && (forall i, j :: 0 <= i < j < |order| ==> order[i] != order[j])
    }

    /** An empty database, before `init_db`. */
    constructor ()
      ensures Valid()
      ensures users == map[] && order == [] && keys == [] && stats == None
    {
      users, order, keys, stats := map[], [], [], None;
    }

    /** `init_db`: creates the statistics record with both counters at 0 only when it is absent. */
    method InitDb()
      requires Valid()
      modifies this`stats
      ensures Valid()
      ensures old(stats).None? ==> stats == Some(StatsDoc(Some(0), Some(0)))
      ensures old(stats).Some? ==> stats == old(stats)
    {
      if stats.None? {
        stats := Some(StatsDoc(Some(0), Some(0)));
      }
    }

    /** `create_user`: a free account with no expiry, no usage and no referrals, reset at `now`. */
    method CreateUser(id: int, referrer: Option<int>, now: int) returns (u: User)
      requires Valid() && id !in users
      modifies this`users, this`order
      ensures Valid()
      ensures u.userId == id && u.tier == Free && u.premiumExpiry == None && u.searchesToday == 0
      ensures u.lastReset == now && u.referredBy == referrer && u.referralCount == 0 && !u.isBanned
      ensures u == NewUser(id, referrer, now)
      ensures users == old(users)[id := u] && order == old(order) + [id]
    {
      u := NewUser(id, referrer, now);
      users := users[id := u];
      order := order + [id];
    }

    /**
     * `check_and_reset_limits`, given the caller's copy `u` of a user record:
     * once a day has passed it stores a zero count reset at `now` and reports 0;
     * otherwise it reports the count and writes nothing.
     */
    method CheckAndResetLimits(u: User, now: int) returns (count: nat)
      requires Valid()
      modifies this`users
      ensures Valid()
      ensures count == ResetLimits(u, now).searchesToday
      ensures EpochElapsed(u, now) ==> count == 0
      ensures !EpochElapsed(u, now) ==> count == u.searchesToday && users == old(users)
      ensures EpochElapsed(u, now) && u.userId in old(users) ==>
        users == old(users)[u.userId := old(users)[u.userId].(searchesToday := 0, lastReset := now)]
      ensures u.userId !in old(users) ==> users == old(users)
    {
      if EpochElapsed(u, now) {
        if u.userId in users {
          users := users[u.userId := users[u.userId].(searchesToday := 0, lastReset := now)];
        }
        return 0;
      }
      return u.searchesToday;
    }

    /**
     * `increment_search_usage`: one more search today for the user, one more
     * search and `resultsCount` more result lines in the statistics record.
     */
    method IncrementSearchUsage(userId: int, resultsCount: nat)
      requires Valid()
      modifies this`users, this`stats
      ensures Valid()
      ensures userId in old(users) ==>
        users == old(users)[userId := old(users)[userId].(searchesToday := old(users)[userId].searchesToday + 1)]
      ensures userId !in old(users) ==> users == old(users)
      ensures old(stats).Some? ==> stats == Some(Counted(old(stats).value, resultsCount))
      ensures old(stats).None? ==> stats == None
    {
      if userId in users {
        users := users[userId := users[userId].(searchesToday := users[userId].searchesToday + 1)];
      }
      if stats.Some? {
        stats := Some(Counted(stats.value, resultsCount));
      }
    }

    /**
     * `handle_referral`: an unknown referrer is not credited; a known one gains
     * one referral, and the reward when the new count is a multiple of 5. The
     * result says whether the reward was granted.
     */
    method HandleReferral(referrerId: int, now: int) returns (rewarded: bool)
      requires Valid()
      modifies this`users
      ensures Valid()
      ensures referrerId !in old(users) ==> !rewarded && users == old(users)
      ensures referrerId in old(users) ==>
        users == old(users)[referrerId := Referred(old(users)[referrerId], now)]
      ensures referrerId in old(users) ==> rewarded == RewardDue(old(users)[referrerId].referralCount + 1)
    {
      if referrerId !in users {
        return false;
      }
      var r := Referred(users[referrerId], now);
      users := users[referrerId := r];
      rewarded := RewardDue(r.referralCount);
    }

    /**
     * `get_stats`: the two counters (0 when missing) and the user counts by
     * tier; `None` when the statistics record does not exist.
     */
    function Report(): (r: Option<StatsReport>)
      reads this
      ensures r.Some? <==> stats.Some?
      ensures r.Some? ==> r.value.totalUsers == |users|
      ensures r.Some? ==> r.value.freeUsers + r.value.premiumUsers == r.value.totalUsers
      ensures r.Some? && stats.value.totalSearches.None? ==> r.value.totalSearches == 0
      ensures r.Some? && stats.value.totalResults.None? ==> r.value.totalResults == 0
      ensures r.Some? ==> r.value.totalSearches == SearchesOf(stats.value)
      ensures r.Some? ==> r.value.totalResults == ResultsOf(stats.value)
      ensures r.Some? ==> r.value.freeUsers == |FreeIds(users)| && r.value.premiumUsers == |PremiumIds(users)|
    {
      if stats.None? then None
      else
        TierCountsPartition(users);
        Some(StatsReport(SearchesOf(stats.value), ResultsOf(stats.value),
                         |users|, |FreeIds(users)|, |PremiumIds(users)|))
    }
  }
}
