/**
 * The member-only route guard: a route marked with feature codes lets a
 * user through only when every one of those features is accessible to them;
 * the first one that is not stops the request with the names of the levels
 * it needs. Root users pass. `isEnabled(user.isRoot)` is taken as given.
 */
module MemberOnlyGuard {
  import opened Wrappers
  import opened Records
  import opened ExtensionFeatures

  datatype MemberOnlyOption = MemberOnlyOption(code: string, name: string)

  /** The request's user: id and whether it is a root user. */
  datatype User = User(id: string, isRoot: bool)

  datatype Decision = Allow | Unauthorized(message: string) | Forbidden(message: string)

  /** `names.join(sep)`. */
  function JoinWith(names: seq<string>, sep: string): string {
    if names == [] then ""
    else if |names| == 1 then names[0]
    else names[0] + sep + JoinWith(names[1..], sep)
  }

  function ForbiddenMessage(levelNames: seq<string>): string {
    "该功能需要 " + JoinWith(levelNames, " 或 ") + " 会员才能使用"
  }

  function Codes(metadata: seq<MemberOnlyOption>): (r: seq<string>)
    ensures |r| == |metadata| && forall i :: 0 <= i < |r| ==> r[i] == metadata[i].code
  {
    seq(|metadata|, i requires 0 <= i < |metadata| => metadata[i].code)
  }

  /** Whether the feature `code` is open to a user holding `held`. */
  predicate Accessible(features: seq<Feature>, held: seq<string>, code: string) {
    CanAccess(RequiredLevelIds(FindFeature(features, code)), held)
  }

  /** The position of the first inaccessible code, if any. */
  function FirstDenied(features: seq<Feature>, held: seq<string>, codes: seq<string>): (r: Option<nat>)
    ensures r.None? <==> forall k :: 0 <= k < |codes| ==> Accessible(features, held, codes[k])
    ensures r.Some? ==> (r.value < |codes| && !Accessible(features, held, codes[r.value]) &&
                         forall k :: 0 <= k < r.value ==> Accessible(features, held, codes[k]))
  {
    if codes == [] then None
    else if !Accessible(features, held, codes[0]) then Some(0)
    else match FirstDenied(features, held, codes[1..])
      case None => None
      case Some(k) => Some(k + 1)
  }

  /** The guard's decision, given the feature table and the user's levels. */
  function Decide(metadata: Option<seq<MemberOnlyOption>>, user: Option<User>, features: seq<Feature>, held: seq<string>): Decision
  {
    if metadata.None? || |metadata.value| == 0 then Allow
    else if user.None? then Unauthorized("未授权访问")
    else if user.value.isRoot then Allow
    else
      var codes := Codes(metadata.value);
      match FirstDenied(features, held, codes)
      case None => Allow
      case Some(k) => Forbidden(ForbiddenMessage(RequiredLevelNames(FindFeature(features, codes[k]))))
  }

  /** A marked route with an authenticated non-root user is allowed iff every feature is accessible. */
  lemma DecideAllFeatures(metadata: seq<MemberOnlyOption>, user: User, features: seq<Feature>, held: seq<string>)
    requires |metadata| > 0 && !user.isRoot
    ensures Decide(Some(metadata), Some(user), features, held) == Allow <==>
      forall o :: o in metadata ==> Accessible(features, held, o.code)
  {
    var codes := Codes(metadata);
    if forall o :: o in metadata ==> Accessible(features, held, o.code) {
      forall k | 0 <= k < |codes| ensures Accessible(features, held, codes[k]) {
        assert metadata[k] in metadata;
      }
    }
    var d := FirstDenied(features, held, codes);
    if d.Some? {
      assert metadata[d.value] in metadata;
    }
  }

  /**
   * Otherwise the route is forbidden, with the level names of the first
   * inaccessible feature: the features before it are all accessible.
   */
  lemma DecideFirstDenied(metadata: seq<MemberOnlyOption>, user: User, features: seq<Feature>, held: seq<string>)
    requires |metadata| > 0 && !user.isRoot
    ensures Decide(Some(metadata), Some(user), features, held).Forbidden? <==>
      exists k :: 0 <= k < |metadata| && !Accessible(features, held, metadata[k].code)
    ensures Decide(Some(metadata), Some(user), features, held).Forbidden? ==>
      exists k :: 0 <= k < |metadata| && !Accessible(features, held, metadata[k].code) &&
        (forall j :: 0 <= j < k ==> Accessible(features, held, metadata[j].code)) &&
        Decide(Some(metadata), Some(user), features, held) ==
          Forbidden(ForbiddenMessage(RequiredLevelNames(FindFeature(features, metadata[k].code))))
  {
    var codes := Codes(metadata);
    var d := FirstDenied(features, held, codes);
    if exists k :: 0 <= k < |metadata| && !Accessible(features, held, metadata[k].code) {
      var k :| 0 <= k < |metadata| && !Accessible(features, held, metadata[k].code);
      assert !Accessible(features, held, codes[k]);
    }
    if d.Some? {
      var k := d.value;
      assert codes[k] == metadata[k].code;
      assert forall j :: 0 <= j < k ==> codes[j] == metadata[j].code;
    }
  }

  /** Unmarked routes pass, a marked route needs a user, and root users pass. */
  lemma DecideBypasses(metadata: Option<seq<MemberOnlyOption>>, user: Option<User>, features: seq<Feature>, held: seq<string>)
    ensures metadata.None? || metadata.value == [] ==> Decide(metadata, user, features, held) == Allow
    ensures metadata.Some? && metadata.value != [] && user.None? ==> Decide(metadata, user, features, held) == Unauthorized("未授权访问")
    ensures metadata.Some? && user.Some? && user.value.isRoot ==> Decide(metadata, user, features, held) == Allow
  {
  }

  /**
   * `canActivate`: checks the feature codes in order through the feature
   * service and stops at the first that is refused. With a coherent feature
   * cache this is the decision above on the service's tables.
   */
  method CanActivate(service: ExtensionFeatureService, metadata: Option<seq<MemberOnlyOption>>, user: Option<User>, now: int)
    returns (r: Decision)
    modifies service
    ensures service.features == old(service.features) && service.subscriptions == old(service.subscriptions)
    ensures service.levelCache == old(service.levelCache)
    ensures old(service.Coherent()) ==>
      service.Coherent() && r == Decide(metadata, user, service.features, if user.Some? then service.UserLevels(user.value.id, now) else [])
  {
    if metadata.None? || |metadata.value| == 0 {
      return Allow;
    }
    if user.None? {
      return Unauthorized("未授权访问");
    }
    var u := user.value;
    if u.isRoot {
      return Allow;
    }
    var featureCodes := Codes(metadata.value);
    ghost var coherent := service.Coherent();
    var i := 0;
    while i < |featureCodes|
      invariant 0 <= i <= |featureCodes|
      invariant service.features == old(service.features) && service.subscriptions == old(service.subscriptions)
      invariant service.levelCache == old(service.levelCache)
      invariant coherent ==> service.Coherent()
      invariant coherent ==> forall k :: 0 <= k < i ==> Accessible(service.features, service.UserLevels(u.id, now), featureCodes[k])
    {
      var canAccess := service.CheckUserCanAccessFeature(u.id, featureCodes[i], now);
      if !canAccess {
        var requiredLevelNames := service.GetFeatureRequiredLevelNames(featureCodes[i]);
        r := Forbidden(ForbiddenMessage(requiredLevelNames));
        assert coherent ==> FirstDenied(service.features, service.UserLevels(u.id, now), featureCodes) == Some(i);
        return;
      }
      i := i + 1;
    }
    r := Allow;
  }
}
