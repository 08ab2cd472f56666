/**
 * The database rows the payment, membership and gift services read and
 * write, held as one value: a transaction maps the value before it to the
 * value after it. The billing service that credits and debits a user's
 * power lives in another package; its effect is modelled as a change of the
 * user's balance plus one appended account log.
 */
module Records {
  import opened Wrappers
  import opened CivilDate

  /** `ACCOUNT_LOG_TYPE` values the services write. */
  datatype LogType = RechargeInc | RechargeGiveInc | MembershipGiftInc | MembershipGiftDec | MembershipGiftExpired

  /**
   * An `AccountLog` row; `accountNo` is the number the billing service gives
   * it, and `availableAmount` is what is left of a gift that can still expire.
   */
  datatype AccountLog = AccountLog(
    accountNo: string, userId: string, accountType: LogType, amount: int, associationNo: string,
    expireAt: Option<Moment>, availableAmount: int, createdAt: Moment)

  /** A plan's custom duration, `{ value, unit }`. */
  datatype Duration = Duration(value: int, unit: string)

  datatype RechargeOrder = RechargeOrder(
    id: string, orderNo: string, userId: string, power: int, givePower: int,
    payStatus: int, transactionId: Option<string>, payTime: Option<Moment>, orderAmount: int)

  /** A membership order with the parts of its plan and level snapshots that are read back. */
  datatype MembershipOrder = MembershipOrder(
    id: string, orderNo: string, userId: string, levelId: string,
    payState: int, status: int, refundStatus: int,
    transactionId: Option<string>, payTime: Option<Moment>,
    durationConfig: Option<int>, duration: Option<Duration>, givePower: int, orderAmount: int)

  datatype Subscription = Subscription(
    userId: string, levelId: string, orderId: Option<string>,
    startTime: Moment, endTime: Moment, source: int)

  /** A membership level as the access checks join it: id, name and rank. */
  datatype LevelInfo = LevelInfo(id: string, name: string, level: int)

  /**
   * A `user_subscription` row as the access checks read it: the level id
   * column (null once the level is gone), the joined level when it still
   * exists, and the end time in milliseconds.
   */
  datatype LevelSubscription = LevelSubscription(userId: string, levelId: Option<string>, level: Option<LevelInfo>, endTime: int)

  /**
   * The tables: user balances and accumulated recharge, account logs,
   * orders, subscriptions, and each level's `givePower`.
   */
  datatype Db = Db(
    power: map<string, int>, totalRechargeAmount: map<string, int>,
    logs: seq<AccountLog>,
    rechargeOrders: seq<RechargeOrder>, membershipOrders: seq<MembershipOrder>,
    subscriptions: seq<Subscription>, levelGivePower: map<string, int>)

  function Lookup(m: map<string, int>, k: string): int {
    if k in m then m[k] else 0
  }

  /** `appBillingService.addUserPower`: the balance grows by `amount` and one log numbered `accountNo` is appended. */
  function AddUserPower(db: Db, accountNo: string, userId: string, amount: int, accountType: LogType, associationNo: string,
                        expireAt: Option<Moment>, now: Moment): (r: Db)
    ensures Lookup(r.power, userId) == Lookup(db.power, userId) + amount
    ensures forall u :: u != userId ==> Lookup(r.power, u) == Lookup(db.power, u)
    ensures r.logs == db.logs + [AccountLog(accountNo, userId, accountType, amount, associationNo, expireAt, amount, now)]
    ensures r.totalRechargeAmount == db.totalRechargeAmount && r.rechargeOrders == db.rechargeOrders
    ensures r.membershipOrders == db.membershipOrders && r.subscriptions == db.subscriptions
    ensures r.levelGivePower == db.levelGivePower
  {
    db.(power := db.power[userId := Lookup(db.power, userId) + amount],
        logs := db.logs + [AccountLog(accountNo, userId, accountType, amount, associationNo, expireAt, amount, now)])
  }

  /** `appBillingService.deductUserPower`: the balance shrinks by `amount` and one log numbered `accountNo` is appended. */
  function DeductUserPower(db: Db, accountNo: string, userId: string, amount: int, accountType: LogType, associationNo: string,
                           now: Moment): (r: Db)
    ensures Lookup(r.power, userId) == Lookup(db.power, userId) - amount
    ensures forall u :: u != userId ==> Lookup(r.power, u) == Lookup(db.power, u)
    ensures r.logs == db.logs + [AccountLog(accountNo, userId, accountType, amount, associationNo, None, 0, now)]
    ensures r.totalRechargeAmount == db.totalRechargeAmount && r.rechargeOrders == db.rechargeOrders
    ensures r.membershipOrders == db.membershipOrders && r.subscriptions == db.subscriptions
    ensures r.levelGivePower == db.levelGivePower
  {
    db.(power := db.power[userId := Lookup(db.power, userId) - amount],
        logs := db.logs + [AccountLog(accountNo, userId, accountType, amount, associationNo, None, 0, now)])
  }

  /** The index of the first element that `matches`, as `find`/`findOne` pick it. */
  function FirstIndex<T>(s: seq<T>, matches: T -> bool): (r: Option<nat>)
    ensures r.Some? ==> r.value < |s| && matches(s[r.value])
    ensures r.Some? ==> forall j :: 0 <= j < r.value ==> !matches(s[j])
    ensures r.None? ==> forall j :: 0 <= j < |s| ==> !matches(s[j])
  {
    if s == [] then None
    else if matches(s[0]) then Some(0)
    else match FirstIndex(s[1..], matches)
      case None => None
      case Some(i) => Some(i + 1)
  }

  /** `findOne({ where: { orderNo } })` on recharge orders: the index of the first match. */
  function FindRechargeOrder(orders: seq<RechargeOrder>, orderNo: string): (r: Option<nat>)
    ensures r.Some? ==> r.value < |orders| && orders[r.value].orderNo == orderNo
    ensures r.Some? ==> forall j :: 0 <= j < r.value ==> orders[j].orderNo != orderNo
    ensures r.None? ==> forall j :: 0 <= j < |orders| ==> orders[j].orderNo != orderNo
  {
    FirstIndex(orders, (o: RechargeOrder) => o.orderNo == orderNo)
  }

  /** `findOne({ where: { orderNo } })` on membership orders. */
  function FindMembershipOrderByNo(orders: seq<MembershipOrder>, orderNo: string): (r: Option<nat>)
    ensures r.Some? ==> r.value < |orders| && orders[r.value].orderNo == orderNo
    ensures r.Some? ==> forall j :: 0 <= j < r.value ==> orders[j].orderNo != orderNo
    ensures r.None? ==> forall j :: 0 <= j < |orders| ==> orders[j].orderNo != orderNo
  {
    FirstIndex(orders, (o: MembershipOrder) => o.orderNo == orderNo)
  }

  /** `findOne({ where: { id } })` on membership orders. */
  function FindMembershipOrderById(orders: seq<MembershipOrder>, id: string): (r: Option<nat>)
    ensures r.Some? ==> r.value < |orders| && orders[r.value].id == id
    ensures r.Some? ==> forall j :: 0 <= j < r.value ==> orders[j].id != id
    ensures r.None? ==> forall j :: 0 <= j < |orders| ==> orders[j].id != id
  {
    FirstIndex(orders, (o: MembershipOrder) => o.id == id)
  }
}
