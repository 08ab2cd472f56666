/**
 * The membership gift schedule: every day the points whose expiry has come
 * are zeroed and deducted, and subscriptions on a 30-day anniversary of
 * their start receive their level's points again, at most once per
 * subscription order and day. The advisory lock and the cron trigger are
 * not part of this model; a run is the handler's body.
 */
module MembershipGift {
  import opened Wrappers
  import opened CivilDate
  import opened Records

  // ---------------------------------------------------------------- the grant day filter

  /** Whole days from `start`'s midnight to `grantDate`, as `Math.floor` of the millisecond difference. */
  function DiffDays(start: Moment, grantDate: Moment): int
    requires ValidMoment(start) && ValidMoment(grantDate)
  {
    (GetTime(grantDate) - GetTime(StartOfDay(start))) / MsPerDay
  }

  /** The filter of `handleDailyGiftPowerGrant`: a positive multiple of 30 days since the start. */
  predicate GrantDue(start: Moment, grantDate: Moment)
    requires ValidMoment(start) && ValidMoment(grantDate)
  {
    var diffDays := DiffDays(start, grantDate);
    diffDays > 0 && diffDays % 30 == 0
  }

  /** At midnight, the day difference is the difference of the calendar days. */
  lemma DiffDaysAtMidnight(start: Moment, grantDate: Moment)
    requires ValidMoment(start) && ValidMoment(grantDate) && grantDate.ms == 0
    ensures DiffDays(start, grantDate) == DayNumber(grantDate.date) - DayNumber(start.date)
  {
    var d := DayNumber(grantDate.date) - DayNumber(start.date);
    assert GetTime(grantDate) - GetTime(StartOfDay(start)) == d * MsPerDay;
  }

  /** Points are due on exactly the days 30, 60, 90, … after the start day; day 0 is not one of them. */
  lemma GrantCadence(start: Moment, k: int)
    requires ValidMoment(start)
    ensures GrantDue(start, Moment(AddDays(start.date, 30 * k), 0)) <==> k >= 1
  {
    var g := Moment(AddDays(start.date, 30 * k), 0);
    DiffDaysAtMidnight(start, g);
    DayNumberAddDays(start.date, 30 * k);
    MultipleOf30(k);
  }

  lemma MultipleOf30(k: int)
    ensures (30 * k) % 30 == 0 && (30 * k > 0 <==> k >= 1)
  {
    assert 30 * k == 30 * k + 0;
  }

  /** Between two anniversaries nothing is due. */
  lemma NoGrantBetween(start: Moment, n: int)
    requires ValidMoment(start) && n % 30 != 0
    ensures !GrantDue(start, Moment(AddDays(start.date, n), 0))
  {
    var g := Moment(AddDays(start.date, n), 0);
    DiffDaysAtMidnight(start, g);
    DayNumberAddDays(start.date, n);
  }

  /** `getNext30Days`: midnight, 30 days on. */
  function Next30Days(date: Moment): (r: Moment)
    requires ValidMoment(date)
    ensures ValidMoment(r) && r.ms == 0
  {
    StartOfDay(SetDate(date, date.date.day + 30))
  }

  lemma Next30DaysMeaning(date: Moment)
    requires ValidMoment(date)
    ensures DayNumber(Next30Days(date).date) == DayNumber(date.date) + 30
  {
    SetDateDayNumber(date, 30);
  }

  // ---------------------------------------------------------------- expiry

  /** The points of a log that have expired at `now`. */
  predicate ExpiredAt(log: AccountLog, now: Moment)
    requires ValidMoment(now)
  {
    log.expireAt.Some? && ValidMoment(log.expireAt.value) && GetTime(log.expireAt.value) <= GetTime(now)
  }

  /**
   * `processExpiredGiftPower` on the log at index `logId`: a missing log, one
   * without an expiry or not yet expired, or one with nothing left is
   * skipped; otherwise its `availableAmount` becomes 0 and exactly that
   * amount is deducted from the user.
   */
  function ProcessExpired(db: Db, logId: nat, now: Moment, deductLogNo: string): Db
    requires ValidMoment(now)
  {
    if logId >= |db.logs| then db
    else
      var log := db.logs[logId];
      if !ExpiredAt(log, now) then db
      else
        var expiredAmount := log.availableAmount;
        if expiredAmount <= 0 then db
        else
          var db1 := db.(logs := db.logs[logId := log.(availableAmount := 0)]);
          DeductUserPower(db1, deductLogNo, log.userId, expiredAmount, MembershipGiftExpired, log.accountNo, now)
  }

  /** Expiry is skipped exactly for a missing, unexpired or empty log. */
  lemma ProcessExpiredSkips(db: Db, logId: nat, now: Moment, deductLogNo: string)
    requires ValidMoment(now)
    ensures (logId >= |db.logs| || !ExpiredAt(db.logs[logId], now) || db.logs[logId].availableAmount <= 0) ==>
      ProcessExpired(db, logId, now, deductLogNo) == db
    ensures !(logId >= |db.logs| || !ExpiredAt(db.logs[logId], now) || db.logs[logId].availableAmount <= 0) ==>
      ProcessExpired(db, logId, now, deductLogNo) != db
  {
    if !(logId >= |db.logs| || !ExpiredAt(db.logs[logId], now) || db.logs[logId].availableAmount <= 0) {
      assert |ProcessExpired(db, logId, now, deductLogNo).logs| == |db.logs| + 1;
    }
  }

  /** Expiry zeroes the log and deducts exactly its old available amount; the other logs are kept. */
  lemma ProcessExpiredEffect(db: Db, logId: nat, now: Moment, deductLogNo: string)
    requires ValidMoment(now)
    requires logId < |db.logs| && ExpiredAt(db.logs[logId], now) && db.logs[logId].availableAmount > 0
    ensures var r := ProcessExpired(db, logId, now, deductLogNo);
      var log := db.logs[logId];
      && |r.logs| == |db.logs| + 1
      && r.logs[logId] == log.(availableAmount := 0)
      && (forall j :: 0 <= j < |db.logs| && j != logId ==> r.logs[j] == db.logs[j])
      && Lookup(r.power, log.userId) == Lookup(db.power, log.userId) - log.availableAmount
      && (forall u :: u != log.userId ==> Lookup(r.power, u) == Lookup(db.power, u))
  {
  }

  /** A second expiry of the same log does nothing. */
  lemma ProcessExpiredOnce(db: Db, logId: nat, now: Moment, n1: string, n2: string)
    requires ValidMoment(now)
    ensures var once := ProcessExpired(db, logId, now, n1);
      ProcessExpired(once, logId, now, n2) == once
  {
  }

  /** A log the cleanup query selects: expired, with points left. */
  predicate Pending(log: AccountLog, now: Moment)
    requires ValidMoment(now)
  {
    ExpiredAt(log, now) && log.availableAmount > 0
  }

  /** The logs the cleanup query returns: expired with something left, in table order. */
  function ExpiredLogIds(logs: seq<AccountLog>, now: Moment): (r: seq<nat>)
    requires ValidMoment(now)
    ensures forall k :: 0 <= k < |r| ==> r[k] < |logs| && Pending(logs[r[k]], now)
    ensures forall j :: 0 <= j < |logs| && Pending(logs[j], now) ==> j in r
  {
    if logs == [] then []
    else
      var last := |logs| - 1;
      var front := logs[..last];
      var prefix := ExpiredLogIds(front, now);
      assert forall j :: 0 <= j < last ==> logs[j] == front[j];
      if Pending(logs[last], now) then prefix + [last] else prefix
  }

  /** Processing the listed logs one after the other. */
  function ExpireEach(db: Db, ids: seq<nat>, now: Moment, logNos: seq<string>): Db
    requires ValidMoment(now) && |logNos| == |ids|
    decreases |ids|
  {
    if ids == [] then db
    else ExpireEach(ProcessExpired(db, ids[0], now, logNos[0]), ids[1..], now, logNos[1..])
  }

  /**
   * `handleExpiredGiftPowerCleanup`: query the expired logs, then process
   * them one by one; `logNos` are the numbers of the deduction logs.
   */
  method CleanupExpired(db: Db, now: Moment, logNos: seq<string>) returns (r: Db)
    requires ValidMoment(now) && |logNos| == |ExpiredLogIds(db.logs, now)|
    ensures r == ExpireEach(db, ExpiredLogIds(db.logs, now), now, logNos)
    ensures forall j :: 0 <= j < |r.logs| && ExpiredAt(r.logs[j], now) ==> r.logs[j].availableAmount <= 0
  {
    var expiredLogs := ExpiredLogIds(db.logs, now);
    r := db;
    var i := 0;
    while i < |expiredLogs|
      invariant 0 <= i <= |expiredLogs|
      invariant ExpireEach(r, expiredLogs[i..], now, logNos[i..]) == ExpireEach(db, expiredLogs, now, logNos)
    {
      assert expiredLogs[i..][1..] == expiredLogs[i + 1..];
      assert logNos[i..][1..] == logNos[i + 1..];
      r := ProcessExpired(r, expiredLogs[i], now, logNos[i]);
      i := i + 1;
    }
    CleanupLeavesNothingExpired(db, expiredLogs, now, logNos);
  }

  /** Processing only changes the processed log and appends; every other log row is kept. */
  lemma {:induction false} ExpireEachFrame(db: Db, ids: seq<nat>, now: Moment, logNos: seq<string>)
    requires ValidMoment(now) && |logNos| == |ids|
    ensures var r := ExpireEach(db, ids, now, logNos);
      && |r.logs| >= |db.logs|
      && (forall j :: 0 <= j < |db.logs| && j !in ids ==> r.logs[j] == db.logs[j])
      && (forall j :: 0 <= j < |db.logs| && j in ids ==> r.logs[j].availableAmount <= 0 || r.logs[j] == db.logs[j])
    decreases |ids|
  {
    if ids != [] {
      var db1 := ProcessExpired(db, ids[0], now, logNos[0]);
      ExpireEachFrame(db1, ids[1..], now, logNos[1..]);
    }
  }

  /** What one expiry does to the log rows: the processed one is emptied or kept, the others kept, and the appended deduction log never expires. */
  lemma ProcessExpiredRows(db: Db, logId: nat, now: Moment, deductLogNo: string)
    requires ValidMoment(now)
    ensures var r := ProcessExpired(db, logId, now, deductLogNo);
      && |r.logs| >= |db.logs|
      && (forall j :: 0 <= j < |db.logs| && j != logId ==> r.logs[j] == db.logs[j])
      && (logId < |db.logs| ==> r.logs[logId] == db.logs[logId] || r.logs[logId].availableAmount == 0)
      && (forall j :: |db.logs| <= j < |r.logs| ==> r.logs[j].expireAt.None?)
  {
  }

  /** A log that is expired with points left after one expiry step was so before, and is not the processed one. */
  lemma ExpiredLeftAfterStep(db: Db, logId: nat, now: Moment, deductLogNo: string, j: nat)
    requires ValidMoment(now)
    requires var r := ProcessExpired(db, logId, now, deductLogNo);
      j < |r.logs| && ExpiredAt(r.logs[j], now) && r.logs[j].availableAmount > 0
    ensures j < |db.logs| && j != logId && ExpiredAt(db.logs[j], now) && db.logs[j].availableAmount > 0
  {
    ProcessExpiredRows(db, logId, now, deductLogNo);
    ProcessExpiredSkips(db, logId, now, deductLogNo);
  }

  /** After the cleanup no expired log has points left. */
  lemma {:induction false} CleanupLeavesNothingExpired(db: Db, ids: seq<nat>, now: Moment, logNos: seq<string>)
    requires ValidMoment(now) && |logNos| == |ids|
    requires forall j :: 0 <= j < |db.logs| && ExpiredAt(db.logs[j], now) && db.logs[j].availableAmount > 0 ==> j in ids
    ensures var r := ExpireEach(db, ids, now, logNos);
      forall j :: 0 <= j < |r.logs| && ExpiredAt(r.logs[j], now) ==> r.logs[j].availableAmount <= 0
    decreases |ids|
  {
    if ids != [] {
      var db1 := ProcessExpired(db, ids[0], now, logNos[0]);
      forall j | 0 <= j < |db1.logs| && ExpiredAt(db1.logs[j], now) && db1.logs[j].availableAmount > 0
        ensures j in ids[1..]
      {
        ExpiredLeftAfterStep(db, ids[0], now, logNos[0], j);
        assert ids == [ids[0]] + ids[1..];
      }
      CleanupLeavesNothingExpired(db1, ids[1..], now, logNos[1..]);
      assert ExpireEach(db, ids, now, logNos) == ExpireEach(db1, ids[1..], now, logNos[1..]);
    }
  }

  // ---------------------------------------------------------------- grants

  /** A gift log of `userId` for the order `associationNo` created in [dayStart, dayEnd). */
  predicate GrantLogIn(log: AccountLog, userId: string, associationNo: string, dayStart: Moment, dayEnd: Moment)
    requires ValidMoment(dayStart) && ValidMoment(dayEnd)
  {
    && log.userId == userId && log.accountType == MembershipGiftInc && log.associationNo == associationNo
    && ValidMoment(log.createdAt)
    && GetTime(dayStart) <= GetTime(log.createdAt) < GetTime(dayEnd)
  }

  function CountGrants(logs: seq<AccountLog>, userId: string, associationNo: string, dayStart: Moment, dayEnd: Moment): (n: nat)
    requires ValidMoment(dayStart) && ValidMoment(dayEnd)
    ensures n <= |logs|
    ensures n == 0 <==> forall j :: 0 <= j < |logs| ==> !GrantLogIn(logs[j], userId, associationNo, dayStart, dayEnd)
  {
    if logs == [] then 0
    else
      var last := logs[|logs| - 1];
      var prefix := logs[..|logs| - 1];
      assert forall j :: 0 <= j < |prefix| ==> prefix[j] == logs[j];
      CountGrants(prefix, userId, associationNo, dayStart, dayEnd) + (if GrantLogIn(last, userId, associationNo, dayStart, dayEnd) then 1 else 0)
  }

  lemma CountGrantsSnoc(logs: seq<AccountLog>, log: AccountLog, userId: string, associationNo: string, dayStart: Moment, dayEnd: Moment)
    requires ValidMoment(dayStart) && ValidMoment(dayEnd)
    ensures CountGrants(logs + [log], userId, associationNo, dayStart, dayEnd) ==
      CountGrants(logs, userId, associationNo, dayStart, dayEnd) + (if GrantLogIn(log, userId, associationNo, dayStart, dayEnd) then 1 else 0)
  {
    assert (logs + [log])[..|logs|] == logs;
  }

  /** The order number of a subscription's order, when it has one with a non-empty number. */
  function OrderNoOf(db: Db, sub: Subscription): Option<string>
  {
    if sub.orderId.None? then None
    else match FindMembershipOrderById(db.membershipOrders, sub.orderId.value)
      case None => None
      case Some(i) => if db.membershipOrders[i].orderNo == "" then None else Some(db.membershipOrders[i].orderNo)
  }

  /** `dayEnd`: midnight of the next day. */
  function DayEnd(dayStart: Moment): (r: Moment)
    requires ValidMoment(dayStart)
    ensures ValidMoment(r)
  {
    SetDate(dayStart, dayStart.date.day + 1)
  }

  /**
   * `processUserGiftPower` for the subscription at index `subscriptionId`
   * on `grantDate`, with the log stamped `now`. It is skipped for a missing
   * subscription, one not active at the day's start, a level giving no
   * points, an order without a number, and when that order already got its
   * gift that day.
   */
  function ProcessGrant(db: Db, subscriptionId: nat, grantDate: Moment, now: Moment, logNo: string): Db
    requires ValidMoment(grantDate) && ValidMoment(now)
  {
    var dayStart := StartOfDay(grantDate);
    var dayEnd := DayEnd(dayStart);
    if subscriptionId >= |db.subscriptions| then db
    else
      var sub := db.subscriptions[subscriptionId];
      if !ValidMoment(sub.startTime) || !ValidMoment(sub.endTime) then db
      else if GetTime(sub.startTime) > GetTime(dayStart) || GetTime(sub.endTime) < GetTime(dayStart) then db
      else
        var givePower := Lookup(db.levelGivePower, sub.levelId);
        if givePower <= 0 then db
        else match OrderNoOf(db, sub)
          case None => db
          case Some(associationNo) =>
            if CountGrants(db.logs, sub.userId, associationNo, dayStart, dayEnd) > 0 then db
            else AddUserPower(db, logNo, sub.userId, givePower, MembershipGiftInc, associationNo, Some(Next30Days(dayStart)), now)
  }

  /** A subscription in force at `dayStart`: started by then and not yet ended. */
  predicate ActiveOn(sub: Subscription, dayStart: Moment)
    requires ValidMoment(dayStart)
  {
    && ValidMoment(sub.startTime) && ValidMoment(sub.endTime)
    && GetTime(sub.startTime) <= GetTime(dayStart) <= GetTime(sub.endTime)
  }

  /** Each guard on its own skips the grant: the database comes back unchanged. */
  lemma ProcessGrantSkips(db: Db, subscriptionId: nat, grantDate: Moment, now: Moment, logNo: string)
    requires ValidMoment(grantDate) && ValidMoment(now)
    ensures subscriptionId >= |db.subscriptions| ==> ProcessGrant(db, subscriptionId, grantDate, now, logNo) == db
    ensures subscriptionId < |db.subscriptions| && !ActiveOn(db.subscriptions[subscriptionId], StartOfDay(grantDate)) ==>
      ProcessGrant(db, subscriptionId, grantDate, now, logNo) == db
    ensures subscriptionId < |db.subscriptions| && Lookup(db.levelGivePower, db.subscriptions[subscriptionId].levelId) <= 0 ==>
      ProcessGrant(db, subscriptionId, grantDate, now, logNo) == db
    ensures subscriptionId < |db.subscriptions| && OrderNoOf(db, db.subscriptions[subscriptionId]).None? ==>
      ProcessGrant(db, subscriptionId, grantDate, now, logNo) == db
    ensures (subscriptionId < |db.subscriptions| && OrderNoOf(db, db.subscriptions[subscriptionId]).Some? &&
             CountGrants(db.logs, db.subscriptions[subscriptionId].userId, OrderNoOf(db, db.subscriptions[subscriptionId]).value,
                         StartOfDay(grantDate), DayEnd(StartOfDay(grantDate))) > 0) ==>
      ProcessGrant(db, subscriptionId, grantDate, now, logNo) == db
  {
  }

  /**
   * Once every guard passes, the grant adds the level's `givePower` to the
   * user and appends one gift log tied to the order, expiring at midnight
   * 30 days after the day granted; nothing else changes.
   */
  lemma ProcessGrantEffect(db: Db, subscriptionId: nat, grantDate: Moment, now: Moment, logNo: string)
    requires ValidMoment(grantDate) && ValidMoment(now)
    requires subscriptionId < |db.subscriptions|
    requires ActiveOn(db.subscriptions[subscriptionId], StartOfDay(grantDate))
    requires Lookup(db.levelGivePower, db.subscriptions[subscriptionId].levelId) > 0
    requires OrderNoOf(db, db.subscriptions[subscriptionId]).Some?
    requires CountGrants(db.logs, db.subscriptions[subscriptionId].userId, OrderNoOf(db, db.subscriptions[subscriptionId]).value,
                         StartOfDay(grantDate), DayEnd(StartOfDay(grantDate))) == 0
    ensures var r := ProcessGrant(db, subscriptionId, grantDate, now, logNo);
      var sub := db.subscriptions[subscriptionId];
      var givePower := Lookup(db.levelGivePower, sub.levelId);
      && Lookup(r.power, sub.userId) == Lookup(db.power, sub.userId) + givePower
      && (forall u :: u != sub.userId ==> Lookup(r.power, u) == Lookup(db.power, u))
      && r.logs == db.logs + [AccountLog(logNo, sub.userId, MembershipGiftInc, givePower, OrderNoOf(db, sub).value,
                                         Some(Next30Days(StartOfDay(grantDate))), givePower, now)]
      && r.totalRechargeAmount == db.totalRechargeAmount && r.rechargeOrders == db.rechargeOrders
      && r.membershipOrders == db.membershipOrders && r.subscriptions == db.subscriptions
      && r.levelGivePower == db.levelGivePower
  {
  }

  /** Every (user, order, day from midnight to midnight) has at most one gift log. */
  ghost predicate AtMostOneGrantPerDay(db: Db)
  {
    forall userId, associationNo, dayStart: Moment | ValidMoment(dayStart) && dayStart.ms == 0 ::
      CountGrants(db.logs, userId, associationNo, dayStart, DayEnd(dayStart)) <= 1
  }

  /** The day of `grantDate` contains `now`: the grant runs on the day it is for. */
  predicate SameDay(grantDate: Moment, now: Moment)
    requires ValidMoment(grantDate) && ValidMoment(now)
  {
    GetTime(StartOfDay(grantDate)) <= GetTime(now) < GetTime(DayEnd(StartOfDay(grantDate)))
  }

  /** A day's end is one day after its start. */
  lemma DayEndLength(dayStart: Moment)
    requires ValidMoment(dayStart)
    ensures GetTime(DayEnd(dayStart)) == GetTime(dayStart) + MsPerDay
  {
    AddDaysByDate(dayStart, 1);
  }

  /** Two midnight-aligned days are the same day or do not overlap. */
  lemma DaysDisjoint(a: Moment, b: Moment, t: int)
    requires ValidMoment(a) && ValidMoment(b) && a.ms == 0 && b.ms == 0
    requires GetTime(a) <= t < GetTime(DayEnd(a)) && GetTime(b) <= t < GetTime(DayEnd(b))
    ensures GetTime(a) == GetTime(b)
  {
    DayEndLength(a);
    DayEndLength(b);
    SameDayNumber(DayNumber(a.date), DayNumber(b.date), t);
  }

  lemma SameDayNumber(x: int, y: int, t: int)
    requires x * MsPerDay <= t < x * MsPerDay + MsPerDay
    requires y * MsPerDay <= t < y * MsPerDay + MsPerDay
    ensures x == y
  {
  }

  /** A grant run on its own day keeps at most one gift per user, order and day. */
  lemma ProcessGrantKeepsOnePerDay(db: Db, subscriptionId: nat, grantDate: Moment, now: Moment, logNo: string)
    requires ValidMoment(grantDate) && ValidMoment(now) && SameDay(grantDate, now)
    requires AtMostOneGrantPerDay(db)
    ensures AtMostOneGrantPerDay(ProcessGrant(db, subscriptionId, grantDate, now, logNo))
  {
    var r := ProcessGrant(db, subscriptionId, grantDate, now, logNo);
    if |r.logs| != |db.logs| {
      var sub := db.subscriptions[subscriptionId];
      var associationNo := OrderNoOf(db, sub).value;
      var givePower := Lookup(db.levelGivePower, sub.levelId);
      var g := StartOfDay(grantDate);
      var log := AccountLog(logNo, sub.userId, MembershipGiftInc, givePower, associationNo, Some(Next30Days(g)), givePower, now);
      assert r.logs == db.logs + [log];
      forall userId, assoc, dayStart: Moment | ValidMoment(dayStart) && dayStart.ms == 0
        ensures CountGrants(r.logs, userId, assoc, dayStart, DayEnd(dayStart)) <= 1
      {
        CountGrantsSnoc(db.logs, log, userId, assoc, dayStart, DayEnd(dayStart));
        if GrantLogIn(log, userId, assoc, dayStart, DayEnd(dayStart)) {
          GrantSameDayHadNone(db, log, g, dayStart, userId, assoc);
        }
      }
    }
  }

  lemma GrantSameDayHadNone(db: Db, log: AccountLog, g: Moment, dayStart: Moment, userId: string, assoc: string)
    requires ValidMoment(g) && ValidMoment(dayStart) && g.ms == 0 && dayStart.ms == 0 && ValidMoment(log.createdAt)
    requires GetTime(g) <= GetTime(log.createdAt) < GetTime(DayEnd(g))
    requires GrantLogIn(log, userId, assoc, dayStart, DayEnd(dayStart))
    requires CountGrants(db.logs, log.userId, log.associationNo, g, DayEnd(g)) == 0
    ensures CountGrants(db.logs, userId, assoc, dayStart, DayEnd(dayStart)) == 0
  {
    DaysDisjoint(g, dayStart, GetTime(log.createdAt));
    assert GetTime(DayEnd(g)) == GetTime(DayEnd(dayStart)) by {
      DayEndLength(g);
      DayEndLength(dayStart);
    }
    forall j | 0 <= j < |db.logs|
      ensures !GrantLogIn(db.logs[j], userId, assoc, dayStart, DayEnd(dayStart))
    {
      assert !GrantLogIn(db.logs[j], log.userId, log.associationNo, g, DayEnd(g));
    }
  }

  // ---------------------------------------------------------------- the daily run

  /** A subscription the daily query and filter select: active at `grantDate` and on a 30-day anniversary. */
  predicate DueOn(sub: Subscription, grantDate: Moment)
    requires ValidMoment(grantDate)
  {
    && ValidMoment(sub.startTime) && ValidMoment(sub.endTime)
    && GetTime(sub.startTime) <= GetTime(grantDate) <= GetTime(sub.endTime)
    && GrantDue(sub.startTime, grantDate)
  }

  /** The indices of the subscriptions due on `grantDate`, in table order. */
  function DueSubscriptions(subs: seq<Subscription>, grantDate: Moment): (r: seq<nat>)
    requires ValidMoment(grantDate)
    ensures forall k :: 0 <= k < |r| ==> r[k] < |subs| && DueOn(subs[r[k]], grantDate)
    ensures forall j :: 0 <= j < |subs| && DueOn(subs[j], grantDate) ==> j in r
  {
    if subs == [] then []
    else
      var last := |subs| - 1;
      var front := subs[..last];
      var prefix := DueSubscriptions(front, grantDate);
      assert forall j :: 0 <= j < last ==> subs[j] == front[j];
      if DueOn(subs[last], grantDate) then prefix + [last] else prefix
  }

  /** Granting to the listed subscriptions one after the other. */
  function GrantEach(db: Db, ids: seq<nat>, grantDate: Moment, now: Moment, logNos: seq<string>): Db
    requires ValidMoment(grantDate) && ValidMoment(now) && |logNos| == |ids|
    decreases |ids|
  {
    if ids == [] then db
    else GrantEach(ProcessGrant(db, ids[0], grantDate, now, logNos[0]), ids[1..], grantDate, now, logNos[1..])
  }

  /** A run at `now` grants for the day of `now`. */
  lemma RunIsSameDay(now: Moment)
    requires ValidMoment(now)
    ensures SameDay(StartOfDay(now), now)
  {
    DayEndLength(StartOfDay(now));
  }

  /** Any sequence of grants on the day they are for keeps at most one gift per user, order and day. */
  lemma {:induction false} GrantEachKeepsOnePerDay(db: Db, ids: seq<nat>, grantDate: Moment, now: Moment, logNos: seq<string>)
    requires ValidMoment(grantDate) && ValidMoment(now) && |logNos| == |ids| && SameDay(grantDate, now)
    requires AtMostOneGrantPerDay(db)
    ensures AtMostOneGrantPerDay(GrantEach(db, ids, grantDate, now, logNos))
    decreases |ids|
  {
    if ids != [] {
      ProcessGrantKeepsOnePerDay(db, ids[0], grantDate, now, logNos[0]);
      GrantEachKeepsOnePerDay(ProcessGrant(db, ids[0], grantDate, now, logNos[0]), ids[1..], grantDate, now, logNos[1..]);
    }
  }

  /**
   * `handleDailyGiftPowerGrant`: normalise the run time to midnight, select
   * the due subscriptions and process them one by one; `logNos` are the
   * numbers of the gift logs.
   */
  method DailyGrant(db: Db, now: Moment, logNos: seq<string>) returns (r: Db)
    requires ValidMoment(now) && |logNos| == |DueSubscriptions(db.subscriptions, StartOfDay(now))|
    ensures r == GrantEach(db, DueSubscriptions(db.subscriptions, StartOfDay(now)), StartOfDay(now), now, logNos)
    ensures AtMostOneGrantPerDay(db) ==> AtMostOneGrantPerDay(r)
  {
    var grantDate := StartOfDay(now);
    var subscriptionsToGrant := DueSubscriptions(db.subscriptions, grantDate);
    r := db;
    var i := 0;
    while i < |subscriptionsToGrant|
      invariant 0 <= i <= |subscriptionsToGrant|
      invariant GrantEach(r, subscriptionsToGrant[i..], grantDate, now, logNos[i..]) == GrantEach(db, subscriptionsToGrant, grantDate, now, logNos)
    {
      assert subscriptionsToGrant[i..][1..] == subscriptionsToGrant[i + 1..];
      assert logNos[i..][1..] == logNos[i + 1..];
      r := ProcessGrant(r, subscriptionsToGrant[i], grantDate, now, logNos[i]);
      i := i + 1;
    }
    if AtMostOneGrantPerDay(db) {
      RunIsSameDay(now);
      GrantEachKeepsOnePerDay(db, subscriptionsToGrant, grantDate, now, logNos);
    }
  }
}
