/**
 * The membership order service: refunding a paid order, the guards and
 * amounts of a new order, the text of a plan's duration, and the paging
 * defaults of the subscription list. The refund record itself is written
 * by the refund service, which is not part of this model; the number of a
 * new order is a parameter.
 */
module MembershipOrders {
  import opened Wrappers
  import opened CivilDate
  import opened Records
  import Text
  import Versions
  import Pay

  // ---------------------------------------------------------------- refund

  /** `delete(UserSubscription, { orderId })`: the subscriptions bought with other orders, in order. */
  function RemoveSubscriptionsOf(subs: seq<Subscription>, orderId: string): (r: seq<Subscription>)
    ensures forall s :: s in r <==> s in subs && s.orderId != Some(orderId)
    ensures |r| <= |subs|
  {
    if subs == [] then []
    else (if subs[0].orderId == Some(orderId) then [] else [subs[0]]) + RemoveSubscriptionsOf(subs[1..], orderId)
  }

  /**
   * `refund(id)`: a missing order, an unpaid one and one already refunded
   * are refused, in that order. Otherwise the order is marked refunded, its
   * subscriptions are deleted, and the points its level gave at purchase are
   * deducted when there were any.
   */
  function Refund(db: Db, id: string, now: Moment, logNo: string): Result<Db, string>
  {
    match FindMembershipOrderById(db.membershipOrders, id)
    case None => Err("会员订单不存在")
    case Some(i) =>
      var order := db.membershipOrders[i];
      if order.payState == 0 then Err("订单未支付,不能发起退款")
      else if order.refundStatus != 0 then Err("订单已退款")
      else
        var db1 := db.(membershipOrders := db.membershipOrders[i := order.(refundStatus := 1)],
                       subscriptions := RemoveSubscriptionsOf(db.subscriptions, order.id));
        if order.givePower > 0 then
          Ok(DeductUserPower(db1, logNo, order.userId, order.givePower, MembershipGiftDec, order.orderNo, now))
        else Ok(db1)
  }

  /** The three refusals, each with its message, and acceptance otherwise. */
  lemma RefundErrors(db: Db, id: string, now: Moment, logNo: string)
    ensures var r := Refund(db, id, now, logNo);
      var found := FindMembershipOrderById(db.membershipOrders, id);
      && (found.None? ==> r == Err("会员订单不存在"))
      && (found.Some? && db.membershipOrders[found.value].payState == 0 ==> r == Err("订单未支付,不能发起退款"))
      && (found.Some? && db.membershipOrders[found.value].payState != 0 && db.membershipOrders[found.value].refundStatus != 0 ==>
            r == Err("订单已退款"))
      && (r.Ok? <==> found.Some? && db.membershipOrders[found.value].payState != 0 && db.membershipOrders[found.value].refundStatus == 0)
  {
  }

  /**
   * An accepted refund marks exactly that order refunded, leaves no
   * subscription of it and keeps the others, and takes the gift points back
   * from the buyer only.
   */
  lemma RefundEffect(db: Db, id: string, now: Moment, logNo: string)
    requires Refund(db, id, now, logNo).Ok?
    ensures var r := Refund(db, id, now, logNo).value;
      var i := FindMembershipOrderById(db.membershipOrders, id).value;
      var order := db.membershipOrders[i];
      && |r.membershipOrders| == |db.membershipOrders|
      && r.membershipOrders[i] == order.(refundStatus := 1)
      && (forall j :: 0 <= j < |db.membershipOrders| && j != i ==> r.membershipOrders[j] == db.membershipOrders[j])
      && (forall s :: s in r.subscriptions <==> s in db.subscriptions && s.orderId != Some(order.id))
      && Lookup(r.power, order.userId) == Lookup(db.power, order.userId) - Pay.Positive(order.givePower)
      && (forall u :: u != order.userId ==> Lookup(r.power, u) == Lookup(db.power, u))
      && (order.givePower > 0 ==>
            r.logs == db.logs + [AccountLog(logNo, order.userId, MembershipGiftDec, order.givePower, order.orderNo, None, 0, now)])
      && (order.givePower <= 0 ==> r.logs == db.logs)
      && r.totalRechargeAmount == db.totalRechargeAmount && r.rechargeOrders == db.rechargeOrders
      && r.levelGivePower == db.levelGivePower
  {
  }

  /** Updating a found row with one of the same id leaves it the one found. */
  lemma FindByIdAfterUpdate(orders: seq<MembershipOrder>, id: string, i: nat, o: MembershipOrder)
    requires FindMembershipOrderById(orders, id) == Some(i) && o.id == id
    ensures FindMembershipOrderById(orders[i := o], id) == Some(i)
  {
    assert orders[i := o][i].id == id;
    assert forall j :: 0 <= j < i ==> orders[i := o][j] == orders[j];
  }

  /** A refund cannot be repeated: the second one is refused as already refunded. */
  lemma RefundOnce(db: Db, id: string, now: Moment, logNo1: string, logNo2: string)
    requires Refund(db, id, now, logNo1).Ok?
    ensures Refund(Refund(db, id, now, logNo1).value, id, now, logNo2) == Err("订单已退款")
  {
    var i := FindMembershipOrderById(db.membershipOrders, id).value;
    var order := db.membershipOrders[i];
    RefundEffect(db, id, now, logNo1);
    var r := Refund(db, id, now, logNo1).value;
    FindByIdAfterUpdate(db.membershipOrders, id, i, order.(refundStatus := 1));
    assert r.membershipOrders == db.membershipOrders[i := order.(refundStatus := 1)];
  }

  // ---------------------------------------------------------------- duration text

  /** `${value}` of an integer. */
  function IntText(n: int): string {
    if n < 0 then "-" + Versions.Show(-n) else Versions.Show(n)
  }

  /**
   * The order's duration text: the plan's own `value` and `unit` when both
   * are set, else the preset name of its `durationConfig`, else "未知".
   */
  function DurationText(durationConfig: Option<int>, duration: Option<Duration>): string
  {
    if duration.Some? && duration.value.value != 0 && duration.value.unit != "" then
      IntText(duration.value.value) + duration.value.unit
    else if durationConfig == Some(1) then "1个月"
    else if durationConfig == Some(2) then "3个月"
    else if durationConfig == Some(3) then "6个月"
    else if durationConfig == Some(4) then "12个月"
    else if durationConfig == Some(5) then "终身"
    else if durationConfig == Some(6) then "自定义"
    else "未知"
  }

  /** A custom duration is shown as its number followed by its unit, and the number reads back. */
  lemma CustomDurationText(durationConfig: Option<int>, value: int, unit: string)
    requires value > 0 && unit != ""
    ensures var text := DurationText(durationConfig, Some(Duration(value, unit)));
      var digits := text[..|text| - |unit|];
      && |text| > |unit| && text[|text| - |unit|..] == unit
      && Text.AllDigits(digits) && Versions.Value(digits) == value
  {
    var text := DurationText(durationConfig, Some(Duration(value, unit)));
    assert text == Versions.Show(value) + unit;
    assert text[..|text| - |unit|] == Versions.Show(value);
    Versions.ValueShow(value);
  }

  /** Months in a span of months or years. */
  function MonthsOf(span: Pay.Span): int {
    match span
    case Months(n) => n
    case Years(n) => 12 * n
    case Days(_) => 0
  }

  lemma ShowSmall()
    ensures Versions.Show(1) == "1" && Versions.Show(3) == "3" && Versions.Show(6) == "6" && Versions.Show(12) == "12"
  {
    assert Versions.Show(12) == Versions.Show(1) + ['2'];
  }

  /**
   * Without a custom duration, the preset text of configs 1 to 4 names the
   * number of months the payment callback adds.
   */
  lemma PresetTextAgreesWithEndTime(config: int)
    requires 1 <= config <= 4
    ensures DurationText(Some(config), None) == Versions.Show(MonthsOf(Pay.SpanOf(Some(config), None))) + "个月"
  {
    ShowSmall();
  }

  /** Configs outside 1 to 6 have no name. */
  lemma UnknownDurationText(durationConfig: Option<int>, duration: Option<Duration>)
    requires durationConfig.None? || !(1 <= durationConfig.value <= 6)
    requires duration.None? || duration.value.value == 0 || duration.value.unit == ""
    ensures DurationText(durationConfig, duration) == "未知"
  {
  }

  // ---------------------------------------------------------------- submitting an order

  /** One entry of a plan's `billing`: the prices of one level, missing prices as `None`. */
  datatype BillingItem = BillingItem(levelId: string, status: bool, originalPrice: Option<int>, salesPrice: Option<int>)

  datatype Plan = Plan(
    id: string, status: bool, durationConfig: Option<int>, duration: Option<Duration>,
    billing: Option<seq<BillingItem>>)

  datatype Level = Level(id: string, status: bool, givePower: int)

  /** The order row `submitOrder` saves. */
  datatype NewOrder = NewOrder(
    userId: string, orderNo: string, planId: string, levelId: string, payType: string,
    duration: string, totalAmount: int, orderAmount: int, givePower: int)

  const Wechat := "wechat"

  /** `findOne({ where: { id, status: true } })` on plans. */
  function FindPlan(plans: seq<Plan>, id: string): (r: Option<nat>)
    ensures r.Some? ==> r.value < |plans| && plans[r.value].id == id && plans[r.value].status
    ensures r.Some? ==> forall j :: 0 <= j < r.value ==> !(plans[j].id == id && plans[j].status)
    ensures r.None? ==> forall j :: 0 <= j < |plans| ==> !(plans[j].id == id && plans[j].status)
  {
    FirstIndex(plans, (x: Plan) => x.id == id && x.status)
  }

  /** `findOne({ where: { id, status: true } })` on levels. */
  function FindLevel(levels: seq<Level>, id: string): (r: Option<nat>)
    ensures r.Some? ==> r.value < |levels| && levels[r.value].id == id && levels[r.value].status
    ensures r.Some? ==> forall j :: 0 <= j < r.value ==> !(levels[j].id == id && levels[j].status)
    ensures r.None? ==> forall j :: 0 <= j < |levels| ==> !(levels[j].id == id && levels[j].status)
  {
    FirstIndex(levels, (x: Level) => x.id == id && x.status)
  }

  /** `billing.find(item => item.levelId === levelId)`: the first item of the level. */
  function FindBilling(billing: seq<BillingItem>, levelId: string): (r: Option<BillingItem>)
    ensures r.Some? ==> r.value in billing && r.value.levelId == levelId
    ensures r.Some? ==> exists k :: 0 <= k < |billing| && billing[k] == r.value && forall j :: 0 <= j < k ==> billing[j].levelId != levelId
    ensures r.None? ==> forall b :: b in billing ==> b.levelId != levelId
  {
    if billing == [] then None
    else if billing[0].levelId == levelId then Some(billing[0])
    else
      var rest := FindBilling(billing[1..], levelId);
      if rest.Some? then
        var k :| 0 <= k < |billing[1..]| && billing[1..][k] == rest.value && forall j :: 0 <= j < k ==> billing[1..][j].levelId != levelId;
        assert billing[k + 1] == rest.value && forall j :: 0 <= j < k + 1 ==> billing[j].levelId != levelId;
        rest
      else rest
  }

  /** The item `plan.billing?.find(...)` gives for the level, when there is one and it is enabled. */
  predicate Billable(plan: Plan, levelId: string) {
    plan.billing.Some? && FindBilling(plan.billing.value, levelId).Some? && FindBilling(plan.billing.value, levelId).value.status
  }

  /** `price || 0`. */
  function OrZero(price: Option<int>): int {
    if price.Some? then price.value else 0
  }

  /**
   * `submitOrder`: refused when memberships are switched off (a missing
   * setting reads as off), for any pay type but WeChat, for a missing or
   * disabled plan or level, and when the plan has no enabled price for the
   * level; otherwise the order carries the plan's duration text and the
   * item's prices, a missing price counting as 0.
   */
  function SubmitOrder(membershipStatus: bool, payType: string, plans: seq<Plan>, planId: string,
                       levels: seq<Level>, levelId: string, userId: string, orderNo: string): Result<NewOrder, string>
  {
    if !membershipStatus then Err("会员功能已关闭")
    else if payType != Wechat then Err("支付方式错误")
    else match FindPlan(plans, planId)
      case None => Err("会员套餐不存在或已下架")
      case Some(p) =>
        var plan := plans[p];
        match FindLevel(levels, levelId)
        case None => Err("会员等级不存在或已下架")
        case Some(l) =>
          var level := levels[l];
          var item := if plan.billing.None? then None else FindBilling(plan.billing.value, levelId);
          if item.None? || !item.value.status then Err("该等级在此套餐中不可用")
          else Ok(NewOrder(userId, orderNo, plan.id, level.id, payType, DurationText(plan.durationConfig, plan.duration),
                           OrZero(item.value.originalPrice), OrZero(item.value.salesPrice), level.givePower))
  }

  /**
   * An order is created only when memberships are on, the pay type is
   * WeChat, an enabled plan and level with those ids exist and the plan
   * has an enabled price for the level; the order is for that plan and level.
   */
  lemma SubmitOrderAccepted(membershipStatus: bool, payType: string, plans: seq<Plan>, planId: string,
                            levels: seq<Level>, levelId: string, userId: string, orderNo: string)
    requires SubmitOrder(membershipStatus, payType, plans, planId, levels, levelId, userId, orderNo).Ok?
    ensures var o := SubmitOrder(membershipStatus, payType, plans, planId, levels, levelId, userId, orderNo).value;
      && membershipStatus && payType == Wechat
      && o.planId == planId && o.levelId == levelId && o.payType == Wechat && o.orderNo == orderNo && o.userId == userId
      && FindPlan(plans, planId).Some?
      && Billable(plans[FindPlan(plans, planId).value], levelId)
      && (exists l :: l in levels && l.id == levelId && l.status && o.givePower == l.givePower)
      && (var p := plans[FindPlan(plans, planId).value];
          var b := FindBilling(p.billing.value, levelId).value;
          o.totalAmount == OrZero(b.originalPrice) && o.orderAmount == OrZero(b.salesPrice) &&
          o.duration == DurationText(p.durationConfig, p.duration))
  {
    var p := FindPlan(plans, planId).value;
    var l := FindLevel(levels, levelId).value;
    assert plans[p] in plans;
    assert levels[l] in levels;
  }

  /** The guards in order: which message a refused order gets, and acceptance once all of them pass. */
  lemma SubmitOrderErrors(membershipStatus: bool, payType: string, plans: seq<Plan>, planId: string,
                          levels: seq<Level>, levelId: string, userId: string, orderNo: string)
    ensures var r := SubmitOrder(membershipStatus, payType, plans, planId, levels, levelId, userId, orderNo);
      && (!membershipStatus ==> r == Err("会员功能已关闭"))
      && (membershipStatus && payType != Wechat ==> r == Err("支付方式错误"))
      && (membershipStatus && payType == Wechat && (forall p :: p in plans ==> !(p.id == planId && p.status)) ==>
            r == Err("会员套餐不存在或已下架"))
      && (membershipStatus && payType == Wechat && (exists p :: p in plans && p.id == planId && p.status) &&
          (forall l :: l in levels ==> !(l.id == levelId && l.status)) ==>
            r == Err("会员等级不存在或已下架"))
      && (membershipStatus && payType == Wechat && FindPlan(plans, planId).Some? && FindLevel(levels, levelId).Some? &&
          !Billable(plans[FindPlan(plans, planId).value], levelId) ==>
            r == Err("该等级在此套餐中不可用"))
      && (membershipStatus && payType == Wechat && FindPlan(plans, planId).Some? && FindLevel(levels, levelId).Some? &&
          Billable(plans[FindPlan(plans, planId).value], levelId) ==>
            r.Ok?)
  {
    var r := SubmitOrder(membershipStatus, payType, plans, planId, levels, levelId, userId, orderNo);
    if membershipStatus && payType == Wechat {
      var fp := FindPlan(plans, planId);
      if fp.None? {
        forall p | p in plans ensures !(p.id == planId && p.status) {
          var j :| 0 <= j < |plans| && plans[j] == p;
        }
      } else {
        assert plans[fp.value] in plans;
        var fl := FindLevel(levels, levelId);
        if fl.None? {
          forall l | l in levels ensures !(l.id == levelId && l.status) {
            var j :| 0 <= j < |levels| && levels[j] == l;
          }
        } else {
          assert levels[fl.value] in levels;
        }
      }
    }
  }

  // ---------------------------------------------------------------- the subscription list

  /** `page || 1`, `pageSize || 10` and the rows skipped before the page. */
  function Paging(page: Option<int>, pageSize: Option<int>): (r: (int, int, int))
  {
    var p := if page.None? || page.value == 0 then 1 else page.value;
    var size := if pageSize.None? || pageSize.value == 0 then 10 else pageSize.value;
    (p, size, (p - 1) * size)
  }

  /** Without parameters the first ten rows are shown, and the pages of one size follow each other without gap or overlap. */
  lemma PagingDefaults(page: Option<int>, pageSize: Option<int>)
    ensures Paging(None, None) == (1, 10, 0)
    ensures Paging(Some(1), pageSize).2 == 0
    ensures page.Some? && page.value != 0 ==> Paging(page, pageSize).0 == page.value
    ensures pageSize.Some? && pageSize.value != 0 ==> Paging(page, pageSize).1 == pageSize.value
    ensures Paging(page, pageSize).1 != 0
    ensures forall n :: n >= 1 ==> Paging(Some(n + 1), pageSize).2 == Paging(Some(n), pageSize).2 + Paging(Some(n), pageSize).1
  {
  }

  /** A subscription is expired once its end time is before now. */
  predicate IsExpired(sub: Subscription, now: Moment)
    requires ValidMoment(sub.endTime) && ValidMoment(now)
  {
    GetTime(sub.endTime) < GetTime(now)
  }

  /** An expired subscription stays expired at every later moment. */
  lemma IsExpiredStays(sub: Subscription, now: Moment, later: Moment)
    requires ValidMoment(sub.endTime) && ValidMoment(now) && ValidMoment(later)
    requires IsExpired(sub, now) && GetTime(now) <= GetTime(later)
    ensures IsExpired(sub, later)
  {
  }

  /** `SUBSCRIPTION_SOURCE_DESC[source] || "未知来源"`: 0 is a system gift, 1 an order purchase. */
  function SourceDesc(source: int): (r: string)
    ensures r == "未知来源" <==> source != 0 && source != 1
  {
    if source == 0 then "系统赠送" else if source == 1 then "订单购买" else "未知来源"
  }
}
