/**
 * The membership check of the chat models: a model that lists membership
 * levels is usable only by a user holding one of them through a
 * subscription that has not ended; the user's highest level rank is
 * reported alongside.
 */
module MembershipValidation {
  import opened Wrappers
  import opened Records
  import opened ExtensionFeatures

  /** The joined levels of a user's subscriptions that end after `now`, in table order. */
  function ValidLevels(subs: seq<LevelSubscription>, userId: string, now: int): (r: seq<LevelInfo>)
    ensures forall l :: l in r <==> exists s :: s in subs && s.userId == userId && s.endTime > now && s.level == Some(l)
  {
    if subs == [] then []
    else
      var s := subs[0];
      assert forall t :: t in subs <==> t == s || t in subs[1..];
      (if s.userId == userId && s.endTime > now && s.level.Some? then [s.level.value] else []) +
      ValidLevels(subs[1..], userId, now)
  }

  /** `Math.max` of the ranks of a non-empty list of levels. */
  function MaxRank(levels: seq<LevelInfo>): (r: int)
    requires levels != []
    ensures forall l :: l in levels ==> l.level <= r
    ensures exists l :: l in levels && l.level == r
  {
    if |levels| == 1 then levels[0].level
    else
      var rest := MaxRank(levels[1..]);
      assert forall l :: l in levels ==> l == levels[0] || l in levels[1..];
      if levels[0].level >= rest then levels[0].level else rest
  }

  function LevelIds(levels: seq<LevelInfo>): (r: seq<string>)
    ensures |r| == |levels| && forall i :: 0 <= i < |r| ==> r[i] == levels[i].id
  {
    seq(|levels|, i requires 0 <= i < |levels| => levels[i].id)
  }

  /** `getUserMembershipInfo`: the ids of the valid subscriptions' levels and their highest rank, or nothing and 0. */
  function GetUserMembershipInfo(subs: seq<LevelSubscription>, userId: string, now: int): (seq<string>, int)
  {
    var valid := ValidLevels(subs, userId, now);
    if valid == [] then ([], 0) else (LevelIds(valid), MaxRank(valid))
  }

  /**
   * The ids are exactly those of levels the user holds through a
   * subscription still running, and the rank is the highest of them, or 0
   * when there is none.
   */
  lemma MembershipInfoMeaning(subs: seq<LevelSubscription>, userId: string, now: int)
    ensures var (ids, maxLevel) := GetUserMembershipInfo(subs, userId, now);
      && (forall x :: x in ids <==> exists s :: s in subs && s.userId == userId && s.endTime > now && s.level.Some? && s.level.value.id == x)
      && (forall s :: s in subs && s.userId == userId && s.endTime > now && s.level.Some? ==> s.level.value.level <= maxLevel)
      && (ids == [] ==> maxLevel == 0)
      && (ids != [] ==> exists s :: s in subs && s.userId == userId && s.endTime > now && s.level.Some? && s.level.value.level == maxLevel)
  {
    var valid := ValidLevels(subs, userId, now);
    var ids := GetUserMembershipInfo(subs, userId, now).0;
    forall x ensures x in ids <==> exists s :: s in subs && s.userId == userId && s.endTime > now && s.level.Some? && s.level.value.id == x {
      if x in ids {
        var i :| 0 <= i < |ids| && ids[i] == x;
        assert valid[i] in valid;
      }
      if exists s :: s in subs && s.userId == userId && s.endTime > now && s.level.Some? && s.level.value.id == x {
        var s :| s in subs && s.userId == userId && s.endTime > now && s.level.Some? && s.level.value.id == x;
        assert s.level.value in valid;
        var i :| 0 <= i < |valid| && valid[i] == s.level.value;
        assert ids[i] == x;
      }
    }
    forall s | s in subs && s.userId == userId && s.endTime > now && s.level.Some?
      ensures s.level.value.level <= GetUserMembershipInfo(subs, userId, now).1
    {
      assert s.level.value in valid;
    }
  }

  datatype ValidationResult = ValidationResult(hasAccess: bool, userLevelIds: seq<string>, maxLevel: int)

  /** `validateModelAccess`: `membershipLevel` is the model's list of required level ids, `None` when unset. */
  function ValidateModelAccess(membershipLevel: Option<seq<string>>, subs: seq<LevelSubscription>, userId: string, now: int)
    : ValidationResult
  {
    var requiredLevelIds := if membershipLevel.None? then [] else membershipLevel.value;
    if |requiredLevelIds| == 0 then ValidationResult(true, [], 0)
    else
      var (userLevelIds, maxLevel) := GetUserMembershipInfo(subs, userId, now);
      ValidationResult(SharesAny(requiredLevelIds, userLevelIds), userLevelIds, maxLevel)
  }

  /**
   * A model without required levels is open and reports nothing; otherwise
   * access is granted iff some required id is held through a running
   * subscription.
   */
  lemma ValidateModelAccessMeaning(membershipLevel: Option<seq<string>>, subs: seq<LevelSubscription>, userId: string, now: int)
    ensures membershipLevel.None? || membershipLevel.value == [] ==>
      ValidateModelAccess(membershipLevel, subs, userId, now) == ValidationResult(true, [], 0)
    ensures membershipLevel.Some? && membershipLevel.value != [] ==>
      (ValidateModelAccess(membershipLevel, subs, userId, now).hasAccess <==>
        exists s :: s in subs && s.userId == userId && s.endTime > now && s.level.Some? && s.level.value.id in membershipLevel.value)
  {
    MembershipInfoMeaning(subs, userId, now);
    if membershipLevel.Some? && membershipLevel.value != [] {
      var required := membershipLevel.value;
      var ids := GetUserMembershipInfo(subs, userId, now).0;
      if exists s :: s in subs && s.userId == userId && s.endTime > now && s.level.Some? && s.level.value.id in required {
        var s :| s in subs && s.userId == userId && s.endTime > now && s.level.Some? && s.level.value.id in required;
        var i :| 0 <= i < |required| && required[i] == s.level.value.id;
        assert required[i] in ids;
      }
    }
  }

  datatype Forbidden = Forbidden(message: string, code: string)

  /** `validateModelAccessOrThrow`: the forbidden error exactly when access is refused. */
  function ValidateModelAccessOrThrow(membershipLevel: Option<seq<string>>, subs: seq<LevelSubscription>, userId: string, now: int)
    : (r: Result<(), Forbidden>)
    ensures r.Err? <==> !ValidateModelAccess(membershipLevel, subs, userId, now).hasAccess
    ensures r.Err? ==> r.error == Forbidden("该模型需要相应会员权限才能使用", "MEMBERSHIP_REQUIRED")
  {
    if !ValidateModelAccess(membershipLevel, subs, userId, now).hasAccess then
      Err(Forbidden("该模型需要相应会员权限才能使用", "MEMBERSHIP_REQUIRED"))
    else Ok(())
  }
}
