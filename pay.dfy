/**
 * The payment service: the prepay guards, the recharge and membership
 * payment callbacks, the membership end time, and the expiry of the points
 * given on purchase (the same day of the next month).
 */
module Pay {
  import opened Wrappers
  import opened CivilDate
  import opened Records

  function Min(a: int, b: int): int { if a <= b then a else b }

  // ---------------------------------------------------------------- getNextMonthSameDay

  /** `getNextMonthSameDay`: midnight of the same day next month, clamped to that month's last day. */
  function NextMonthSameDay(date: Moment): (r: Moment)
    requires ValidMoment(date)
    ensures ValidMoment(r) && r.ms == 0
  {
    var year := date.date.year;
    var month := date.date.month;
    var day := date.date.day;
    var nextMonth := month + 1;
    var nextYear := if nextMonth > 11 then year + 1 else year;
    var actualNextMonth := if nextMonth > 11 then 0 else nextMonth;
    var daysInNextMonth := MakeDate(nextYear, actualNextMonth + 1, 0).day;
    var actualDay := Min(day, daysInNextMonth);
    StartOfDay(Moment(MakeDate(nextYear, actualNextMonth, actualDay), 0))
  }

  /**
   * December rolls into January of the next year; the day of the month is
   * kept when the next month has it and is otherwise that month's last day.
   */
  lemma NextMonthSameDayMeaning(date: Moment)
    requires ValidMoment(date)
    ensures var d := date.date;
      var next := MonthAfter(d.year, d.month);
      && next == (if d.month == 11 then (d.year + 1, 0) else (d.year, d.month + 1))
      && NextMonthSameDay(date).date == Date(next.0, next.1, Min(d.day, DaysInMonth(next.0, next.1)))
  {
    var d := date.date;
    var next := MonthAfter(d.year, d.month);
    MakeDateDayZero(next.0, next.1);
    MakeDateOfValid(Date(next.0, next.1, Min(d.day, DaysInMonth(next.0, next.1))));
  }

  /** The points given on purchase expire between 28 and 31 days later, at midnight. */
  lemma NextMonthSameDayDistance(date: Moment)
    requires ValidMoment(date)
    ensures 28 <= DayNumber(NextMonthSameDay(date).date) - DayNumber(date.date) <= 31
  {
    var d := date.date;
    var next := MonthAfter(d.year, d.month);
    NextMonthSameDayMeaning(date);
    MonthStartStep(d.year, d.month);
  }

  // ---------------------------------------------------------------- membership end time

  /** What a plan adds to the start time. */
  datatype Span = Months(months: int) | Years(years: int) | Days(days: int)

  /**
   * The plan table: `durationConfig` 1, 2, 3 are 1, 3 and 6 months, 4 is one
   * year, 5 ("forever") is 100 years, 6 is the custom `{ value, unit }` with
   * the unit in English or Chinese and months for any other unit; a missing,
   * zero or unknown configuration, or a custom one without a non-zero value
   * and a unit, is one month.
   */
  function SpanOf(durationConfig: Option<int>, duration: Option<Duration>): Span
  {
    if durationConfig.None? || durationConfig.value == 0 then Months(1)
    else if durationConfig.value == 1 then Months(1)
    else if durationConfig.value == 2 then Months(3)
    else if durationConfig.value == 3 then Months(6)
    else if durationConfig.value == 4 then Years(1)
    else if durationConfig.value == 5 then Years(100)
    else if durationConfig.value == 6 then
      if duration.Some? && duration.value.value != 0 && duration.value.unit != "" then
        var v := duration.value.value;
        var unit := duration.value.unit;
        if unit == "day" || unit == "天" then Days(v)
        else if unit == "month" || unit == "月" then Months(v)
        else if unit == "year" || unit == "年" then Years(v)
        else Months(v)
      else Months(1)
    else Months(1)
  }

  /** `setMonth(getMonth() + n)`, `setFullYear(getFullYear() + n)` or `setDate(getDate() + n)`. */
  function Extend(t: Moment, span: Span): (r: Moment)
    requires ValidMoment(t)
    ensures ValidMoment(r) && r.ms == t.ms
  {
    match span
    case Months(n) => SetMonth(t, t.date.month + n)
    case Years(n) => SetFullYear(t, t.date.year + n)
    case Days(n) => SetDate(t, t.date.day + n)
  }

  function SpanLength(span: Span): int {
    match span
    case Months(n) => n
    case Years(n) => n
    case Days(n) => n
  }

  /** The membership callback's end time: `endTime` starts as a copy of `now` and one setter moves it. */
  method MembershipEndTime(now: Moment, durationConfig: Option<int>, duration: Option<Duration>)
    returns (endTime: Moment)
    requires ValidMoment(now)
    ensures endTime == Extend(now, SpanOf(durationConfig, duration))
  {
    endTime := now;
    if durationConfig.Some? && durationConfig.value != 0 {
      var config := durationConfig.value;
      if config == 1 {
        endTime := SetMonth(endTime, endTime.date.month + 1);
      } else if config == 2 {
        endTime := SetMonth(endTime, endTime.date.month + 3);
      } else if config == 3 {
        endTime := SetMonth(endTime, endTime.date.month + 6);
      } else if config == 4 {
        endTime := SetFullYear(endTime, endTime.date.year + 1);
      } else if config == 5 {
        endTime := SetFullYear(endTime, endTime.date.year + 100);
      } else if config == 6 {
        if duration.Some? && duration.value.value != 0 && duration.value.unit != "" {
          var value := duration.value.value;
          var unit := duration.value.unit;
          if unit == "day" || unit == "天" {
            endTime := SetDate(endTime, endTime.date.day + value);
          } else if unit == "month" || unit == "月" {
            endTime := SetMonth(endTime, endTime.date.month + value);
          } else if unit == "year" || unit == "年" {
            endTime := SetFullYear(endTime, endTime.date.year + value);
          } else {
            endTime := SetMonth(endTime, endTime.date.month + value);
          }
        } else {
          endTime := SetMonth(endTime, endTime.date.month + 1);
        }
      } else {
        endTime := SetMonth(endTime, endTime.date.month + 1);
      }
    } else {
      endTime := SetMonth(endTime, endTime.date.month + 1);
    }
  }

  /** Every span the table produces is positive, except a custom span with a negative value. */
  lemma SpanOfPositive(durationConfig: Option<int>, duration: Option<Duration>)
    ensures SpanLength(SpanOf(durationConfig, duration)) > 0 <==>
      !(durationConfig == Some(6) && duration.Some? && duration.value.value < 0 && duration.value.unit != "")
  {
  }

  /** A positive span ends strictly after it starts, at the same time of day. */
  lemma ExtendLater(t: Moment, span: Span)
    requires ValidMoment(t) && SpanLength(span) > 0
    ensures GetTime(Extend(t, span)) > GetTime(t)
  {
    match span
    case Months(n) => AddMonthsLater(t, n);
    case Years(n) => AddYearsLater(t, n);
    case Days(n) => AddDaysByDate(t, n);
  }

  /** The time a membership bought at `now` ends: the plan's span added to `now`. */
  function EndTime(now: Moment, order: MembershipOrder): (r: Moment)
    requires ValidMoment(now)
    ensures ValidMoment(r) && r.ms == now.ms
  {
    Extend(now, SpanOf(order.durationConfig, order.duration))
  }

  /** A membership ends after it starts, unless its custom duration is negative. */
  lemma EndTimeLater(now: Moment, order: MembershipOrder)
    requires ValidMoment(now)
    requires !(order.durationConfig == Some(6) && order.duration.Some? && order.duration.value.value < 0 &&
               order.duration.value.unit != "")
    ensures GetTime(EndTime(now, order)) > GetTime(now)
  {
    SpanOfPositive(order.durationConfig, order.duration);
    ExtendLater(now, SpanOf(order.durationConfig, order.duration));
  }

  // ---------------------------------------------------------------- prepay

  /** What is sent to WeChat Pay for the QR code. */
  datatype PayOrder = PayOrder(orderSn: string, payType: int, from: string, amount: int)

  /**
   * `prepay`: `from` picks the table, and `recharge`/`membership` are the
   * caller's order with that id, if any. A missing or paid order, or an
   * unknown source, is refused.
   */
  function Prepay(from: string, payType: int, recharge: Option<RechargeOrder>, membership: Option<MembershipOrder>)
    : (r: Result<PayOrder, string>)
    ensures from != "recharge" && from != "membership" ==> r == Err("无效的订单来源")
    ensures from == "recharge" ==>
      (recharge.None? ==> r == Err("充值订单不存在")) &&
      (recharge.Some? && recharge.value.payStatus != 0 ==> r == Err("该订单已支付")) &&
      (recharge.Some? && recharge.value.payStatus == 0 ==>
        r == Ok(PayOrder(recharge.value.orderNo, payType, from, recharge.value.orderAmount)))
    ensures from == "membership" ==>
      (membership.None? ==> r == Err("会员订单不存在")) &&
      (membership.Some? && membership.value.payState != 0 ==> r == Err("该订单已支付")) &&
      (membership.Some? && membership.value.payState == 0 ==>
        r == Ok(PayOrder(membership.value.orderNo, payType, from, membership.value.orderAmount)))
  {
    if from == "recharge" then
      if recharge.None? then Err("充值订单不存在")
      else if recharge.value.payStatus != 0 then Err("该订单已支付")
      else Ok(PayOrder(recharge.value.orderNo, payType, from, recharge.value.orderAmount))
    else if from == "membership" then
      if membership.None? then Err("会员订单不存在")
      else if membership.value.payState != 0 then Err("该订单已支付")
      else Ok(PayOrder(membership.value.orderNo, payType, from, membership.value.orderAmount))
    else Err("无效的订单来源")
  }

  /** A pay order goes out exactly for an existing unpaid order of a known source. */
  lemma PrepayAccepts(from: string, payType: int, recharge: Option<RechargeOrder>, membership: Option<MembershipOrder>)
    ensures Prepay(from, payType, recharge, membership).Ok? <==>
      (from == "recharge" && recharge.Some? && recharge.value.payStatus == 0) ||
      (from == "membership" && membership.Some? && membership.value.payState == 0)
  {
  }

  // ---------------------------------------------------------------- recharge callback

  /**
   * The `recharge` callback: nothing happens when no order has the trade
   * number or it is already paid; otherwise power and gift power are
   * credited (each only when positive), the order is marked paid, and the
   * user's accumulated recharge grows by both.
   */
  function RechargeCallback(db: Db, outTradeNo: string, transactionId: string, now: Moment, logNos: (string, string)): Db
  {
    match FindRechargeOrder(db.rechargeOrders, outTradeNo)
    case None => db
    case Some(i) =>
      var order := db.rechargeOrders[i];
      if order.payStatus == 1 then db
      else
        var db1 := if order.power > 0 then AddUserPower(db, logNos.0, order.userId, order.power, RechargeInc, order.orderNo, None, now) else db;
        var db2 := if order.givePower > 0 then AddUserPower(db1, logNos.1, order.userId, order.givePower, RechargeGiveInc, order.orderNo, None, now) else db1;
        var paid := order.(payStatus := 1, payTime := Some(now), transactionId := Some(transactionId));
        db2.(rechargeOrders := db2.rechargeOrders[i := paid],
             totalRechargeAmount := db2.totalRechargeAmount[order.userId := Lookup(db2.totalRechargeAmount, order.userId) + order.power + order.givePower])
  }

  function Positive(n: int): int { if n > 0 then n else 0 }

  /** The effect of a first callback on an unpaid order. */
  lemma RechargeCallbackEffect(db: Db, outTradeNo: string, transactionId: string, now: Moment, logNos: (string, string))
    ensures var r := RechargeCallback(db, outTradeNo, transactionId, now, logNos);
      match FindRechargeOrder(db.rechargeOrders, outTradeNo)
      case None => r == db
      case Some(i) =>
        var order := db.rechargeOrders[i];
        if order.payStatus == 1 then r == db
        else
          && r.rechargeOrders == db.rechargeOrders[i := order.(payStatus := 1, payTime := Some(now), transactionId := Some(transactionId))]
          && Lookup(r.power, order.userId) == Lookup(db.power, order.userId) + Positive(order.power) + Positive(order.givePower)
          && (forall u :: u != order.userId ==> Lookup(r.power, u) == Lookup(db.power, u))
          && r.logs == db.logs + RechargeLogs(order, logNos, now)
          && Lookup(r.totalRechargeAmount, order.userId) == Lookup(db.totalRechargeAmount, order.userId) + order.power + order.givePower
          && (forall u :: u != order.userId ==> Lookup(r.totalRechargeAmount, u) == Lookup(db.totalRechargeAmount, u))
          && r.membershipOrders == db.membershipOrders && r.subscriptions == db.subscriptions
          && r.levelGivePower == db.levelGivePower
  {
  }

  /**
   * The account logs a first recharge callback writes: `RECHARGE_INC` for
   * the power, then `RECHARGE_GIVE_INC` for the gift, each only when positive.
   */
  function RechargeLogs(order: RechargeOrder, logNos: (string, string), now: Moment): seq<AccountLog> {
    (if order.power > 0 then [AccountLog(logNos.0, order.userId, RechargeInc, order.power, order.orderNo, None, order.power, now)] else [])
    + (if order.givePower > 0 then [AccountLog(logNos.1, order.userId, RechargeGiveInc, order.givePower, order.orderNo, None, order.givePower, now)] else [])
  }

  /** Replaying a callback changes nothing: the order is found again, now paid. */
  lemma RechargeCallbackReplay(db: Db, outTradeNo: string, t1: string, t2: string, now1: Moment, now2: Moment,
                                logNos1: (string, string), logNos2: (string, string))
    ensures var once := RechargeCallback(db, outTradeNo, t1, now1, logNos1);
      RechargeCallback(once, outTradeNo, t2, now2, logNos2) == once
  {
    var once := RechargeCallback(db, outTradeNo, t1, now1, logNos1);
    match FindRechargeOrder(db.rechargeOrders, outTradeNo)
    case None =>
    case Some(i) =>
      if db.rechargeOrders[i].payStatus != 1 {
        assert |once.rechargeOrders| == |db.rechargeOrders|;
        assert forall j :: 0 <= j < i ==> once.rechargeOrders[j] == db.rechargeOrders[j];
        assert once.rechargeOrders[i].orderNo == outTradeNo;
        FindRechargeOrderAt(once.rechargeOrders, outTradeNo, i);
      }
  }

  lemma FindRechargeOrderAt(orders: seq<RechargeOrder>, orderNo: string, i: nat)
    requires i < |orders| && orders[i].orderNo == orderNo
    requires forall j :: 0 <= j < i ==> orders[j].orderNo != orderNo
    ensures FindRechargeOrder(orders, orderNo) == Some(i)
  {
    match FindRechargeOrder(orders, orderNo)
    case None =>
    case Some(k) =>
  }

  // ---------------------------------------------------------------- membership callback

  /**
   * The `membership` callback: nothing happens when no order has the trade
   * number or it is already paid; otherwise the order is marked paid, a
   * subscription from now to the plan's end time is added, and a positive
   * gift is credited, expiring on the same day next month.
   */
  function MembershipCallback(db: Db, outTradeNo: string, transactionId: string, now: Moment, logNo: string): Db
    requires ValidMoment(now)
  {
    match FindMembershipOrderByNo(db.membershipOrders, outTradeNo)
    case None => db
    case Some(i) =>
      var order := db.membershipOrders[i];
      if order.payState == 1 then db
      else
        var paid := order.(payState := 1, status := 1, payTime := Some(now), transactionId := Some(transactionId));
        var db1 := db.(membershipOrders := db.membershipOrders[i := paid]);
        var subscription := Subscription(order.userId, order.levelId, Some(order.id), now, EndTime(now, order), 1);
        var db2 := db1.(subscriptions := db1.subscriptions + [subscription]);
        if order.givePower > 0 then
          AddUserPower(db2, logNo, order.userId, order.givePower, MembershipGiftInc, order.orderNo, Some(NextMonthSameDay(now)), now)
        else db2
  }

  lemma FindMembershipOrderByNoAt(orders: seq<MembershipOrder>, orderNo: string, i: nat)
    requires i < |orders| && orders[i].orderNo == orderNo
    requires forall j :: 0 <= j < i ==> orders[j].orderNo != orderNo
    ensures FindMembershipOrderByNo(orders, orderNo) == Some(i)
  {
    match FindMembershipOrderByNo(orders, orderNo)
    case None =>
    case Some(k) =>
  }

  /** The effect of a first membership callback on an unpaid order. */
  lemma MembershipCallbackEffect(db: Db, outTradeNo: string, transactionId: string, now: Moment, logNo: string)
    requires ValidMoment(now)
    ensures var r := MembershipCallback(db, outTradeNo, transactionId, now, logNo);
      match FindMembershipOrderByNo(db.membershipOrders, outTradeNo)
      case None => r == db
      case Some(i) =>
        var order := db.membershipOrders[i];
        if order.payState == 1 then r == db
        else
          && r.membershipOrders == db.membershipOrders[i := order.(payState := 1, status := 1, payTime := Some(now), transactionId := Some(transactionId))]
          && r.subscriptions == db.subscriptions + [Subscription(order.userId, order.levelId, Some(order.id), now, EndTime(now, order), 1)]
          && Lookup(r.power, order.userId) == Lookup(db.power, order.userId) + Positive(order.givePower)
          && (order.givePower > 0 ==>
                r.logs == db.logs + [AccountLog(logNo, order.userId, MembershipGiftInc, order.givePower, order.orderNo,
                                                Some(NextMonthSameDay(now)), order.givePower, now)])
          && (order.givePower <= 0 ==> r.logs == db.logs)
          && (forall u :: u != order.userId ==> Lookup(r.power, u) == Lookup(db.power, u))
          && r.totalRechargeAmount == db.totalRechargeAmount && r.rechargeOrders == db.rechargeOrders
          && r.levelGivePower == db.levelGivePower
  {
  }

  /** Replaying the membership callback changes nothing. */
  lemma MembershipCallbackReplay(db: Db, outTradeNo: string, t1: string, t2: string, now1: Moment, now2: Moment,
                                  logNo1: string, logNo2: string)
    requires ValidMoment(now1) && ValidMoment(now2)
    ensures var once := MembershipCallback(db, outTradeNo, t1, now1, logNo1);
      MembershipCallback(once, outTradeNo, t2, now2, logNo2) == once
  {
    var once := MembershipCallback(db, outTradeNo, t1, now1, logNo1);
    match FindMembershipOrderByNo(db.membershipOrders, outTradeNo)
    case None =>
    case Some(i) =>
      if db.membershipOrders[i].payState != 1 {
        assert |once.membershipOrders| == |db.membershipOrders|;
        assert forall j :: 0 <= j < i ==> once.membershipOrders[j] == db.membershipOrders[j];
        assert once.membershipOrders[i].orderNo == outTradeNo;
        FindMembershipOrderByNoAt(once.membershipOrders, outTradeNo, i);
      }
  }
}
