/**
 * The extension feature service: which membership levels a feature needs,
 * which levels a user holds, and the access rule "any required level will
 * do, and a feature that needs none is open". Features are read through a
 * cache (cache-aside: a hit is returned as is, a miss reads the table and
 * caches only a feature that was found). Cache expiry is not modelled.
 */
module ExtensionFeatures {
  import opened Wrappers
  import opened Records

  datatype FeatureLevel = FeatureLevel(id: string, name: string)

  /** An `extension_feature` row with its levels; `None` stands for a relation that was not loaded. */
  datatype Feature = Feature(featureCode: string, status: bool, membershipLevels: Option<seq<FeatureLevel>>)

  /** `findOne({ where: { featureCode, status: true } })`. */
  function FindFeature(features: seq<Feature>, code: string): (r: Option<Feature>)
    ensures r.Some? ==> r.value in features && r.value.featureCode == code && r.value.status
    ensures r.None? ==> forall f :: f in features ==> !(f.featureCode == code && f.status)
  {
    if features == [] then None
    else if features[0].featureCode == code && features[0].status then Some(features[0])
    else FindFeature(features[1..], code)
  }

  /** The levels a feature needs; none for a missing feature or one without levels. */
  function RequiredLevels(feature: Option<Feature>): seq<FeatureLevel> {
    if feature.None? || feature.value.membershipLevels.None? then [] else feature.value.membershipLevels.value
  }

  /** `getFeatureRequiredLevelIds` on a looked-up feature. */
  function RequiredLevelIds(feature: Option<Feature>): (r: seq<string>)
    ensures |r| == |RequiredLevels(feature)|
    ensures forall i :: 0 <= i < |r| ==> r[i] == RequiredLevels(feature)[i].id
  {
    var levels := RequiredLevels(feature);
    seq(|levels|, i requires 0 <= i < |levels| => levels[i].id)
  }

  /** `getFeatureRequiredLevelNames` on a looked-up feature. */
  function RequiredLevelNames(feature: Option<Feature>): (r: seq<string>)
    ensures |r| == |RequiredLevels(feature)|
    ensures forall i :: 0 <= i < |r| ==> r[i] == RequiredLevels(feature)[i].name
  {
    var levels := RequiredLevels(feature);
    seq(|levels|, i requires 0 <= i < |levels| => levels[i].name)
  }

  /** The level ids of a user's subscriptions that end after `now`, null ids dropped. */
  function ActiveLevelIds(subs: seq<LevelSubscription>, userId: string, now: int): (r: seq<string>)
    ensures forall x :: x in r <==> exists s :: s in subs && s.userId == userId && s.endTime > now && s.levelId == Some(x)
  {
    if subs == [] then []
    else
      var s := subs[0];
      assert forall t :: t in subs <==> t == s || t in subs[1..];
      (if s.userId == userId && s.endTime > now && s.levelId.Some? then [s.levelId.value] else []) +
      ActiveLevelIds(subs[1..], userId, now)
  }

  /** `required.some(id => held.includes(id))`. */
  predicate SharesAny(required: seq<string>, held: seq<string>) {
    exists i :: 0 <= i < |required| && required[i] in held
  }

  /** `checkUserCanAccessFeature` once both lists are known. */
  predicate CanAccess(required: seq<string>, held: seq<string>) {
    |required| == 0 || SharesAny(required, held)
  }

  /** Access is granted iff nothing is required or the required and held levels meet. */
  lemma CanAccessMeaning(required: seq<string>, held: seq<string>)
    ensures CanAccess(required, held) <==>
      required == [] || (set x | x in required) * (set x | x in held) != {}
  {
    if (set x | x in required) * (set x | x in held) != {} {
      var x :| x in (set x | x in required) * (set x | x in held);
      var i :| 0 <= i < |required| && required[i] == x;
    }
    if SharesAny(required, held) {
      var i :| 0 <= i < |required| && required[i] in held;
      assert required[i] in (set x | x in required) * (set x | x in held);
    }
  }

  /** A missing feature, or one with no levels, is open to everybody. */
  lemma OpenFeature(features: seq<Feature>, code: string, held: seq<string>)
    requires FindFeature(features, code).None? || RequiredLevels(FindFeature(features, code)) == []
    ensures CanAccess(RequiredLevelIds(FindFeature(features, code)), held)
  {
  }

  /** Holding one of the required levels is enough; holding none is refused. */
  lemma AccessByLevel(feature: Option<Feature>, held: seq<string>)
    requires RequiredLevels(feature) != []
    ensures CanAccess(RequiredLevelIds(feature), held) <==> exists l :: l in RequiredLevels(feature) && l.id in held
  {
    var levels := RequiredLevels(feature);
    var ids := RequiredLevelIds(feature);
    if exists l :: l in levels && l.id in held {
      var l :| l in levels && l.id in held;
      var i :| 0 <= i < |levels| && levels[i] == l;
      assert ids[i] in held;
    }
    if SharesAny(ids, held) {
      var i :| 0 <= i < |ids| && ids[i] in held;
      assert levels[i] in levels;
    }
  }

  /** The service with its feature table, subscription table and two caches. */
  class ExtensionFeatureService {
    var features: seq<Feature>
    var subscriptions: seq<LevelSubscription>
    /** `extension_feature:<code>` entries. */
    var featureCache: map<string, Feature>
    /** `user_active_levels:<userId>` entries; this service reads them but never writes them. */
    var levelCache: map<string, seq<string>>

    constructor(features: seq<Feature>, subscriptions: seq<LevelSubscription>)
      ensures this.features == features && this.subscriptions == subscriptions
      ensures featureCache == map[] && levelCache == map[]
      ensures Coherent()
    {
      this.features := features;
      this.subscriptions := subscriptions;
      featureCache := map[];
      levelCache := map[];
    }

    /** Every cached feature is what the table gives for its code. */
    predicate Coherent()
      reads this
    {
      forall code :: code in featureCache ==> FindFeature(features, code) == Some(featureCache[code])
    }

    /** The levels `getUserActiveLevelIds` reports: the cached list, else the table's. */
    function UserLevels(userId: string, now: int): seq<string>
      reads this
    {
      if userId in levelCache then levelCache[userId] else ActiveLevelIds(subscriptions, userId, now)
    }

    /**
     * `getFeatureByCode`: a cache hit is returned; on a miss the table is
     * read and only a found feature is cached. With a coherent cache the
     * answer is the table's, and the cache stays coherent.
     */
    method GetFeatureByCode(featureCode: string) returns (r: Option<Feature>)
      modifies this
      ensures features == old(features) && subscriptions == old(subscriptions) && levelCache == old(levelCache)
      ensures featureCode in old(featureCache) ==> r == Some(old(featureCache)[featureCode]) && featureCache == old(featureCache)
      ensures featureCode !in old(featureCache) ==>
        r == FindFeature(features, featureCode) &&
        featureCache == (if r.Some? then old(featureCache)[featureCode := r.value] else old(featureCache))
      ensures old(Coherent()) ==> Coherent() && r == FindFeature(features, featureCode)
    {
      if featureCode in featureCache {
        return Some(featureCache[featureCode]);
      }
      r := FindFeature(features, featureCode);
      if r.Some? {
        featureCache := featureCache[featureCode := r.value];
      }
    }

    method GetFeatureRequiredLevelIds(featureCode: string) returns (r: seq<string>)
      modifies this
      ensures features == old(features) && subscriptions == old(subscriptions) && levelCache == old(levelCache)
      ensures old(Coherent()) ==> Coherent() && r == RequiredLevelIds(FindFeature(features, featureCode))
    {
      var feature := GetFeatureByCode(featureCode);
      r := RequiredLevelIds(feature);
    }

    method GetFeatureRequiredLevelNames(featureCode: string) returns (r: seq<string>)
      modifies this
      ensures features == old(features) && subscriptions == old(subscriptions) && levelCache == old(levelCache)
      ensures old(Coherent()) ==> Coherent() && r == RequiredLevelNames(FindFeature(features, featureCode))
    {
      var feature := GetFeatureByCode(featureCode);
      r := RequiredLevelNames(feature);
    }

    /** `getUserActiveLevelIds`: the cached list when there is one, else the subscriptions ending after `now`. */
    method GetUserActiveLevelIds(userId: string, now: int) returns (r: seq<string>)
      ensures r == UserLevels(userId, now)
    {
      if userId in levelCache {
        return levelCache[userId];
      }
      r := ActiveLevelIds(subscriptions, userId, now);
    }

    /** `checkUserCanAccessFeature`: the user's levels are read only when the feature needs some. */
    method CheckUserCanAccessFeature(userId: string, featureCode: string, now: int) returns (r: bool)
      modifies this
      ensures features == old(features) && subscriptions == old(subscriptions) && levelCache == old(levelCache)
      ensures old(Coherent()) ==> Coherent() && r == CanAccess(RequiredLevelIds(FindFeature(features, featureCode)), UserLevels(userId, now))
    {
      var requiredLevelIds := GetFeatureRequiredLevelIds(featureCode);
      if |requiredLevelIds| == 0 {
        return true;
      }
      var userLevelIds := GetUserActiveLevelIds(userId, now);
      r := SharesAny(requiredLevelIds, userLevelIds);
    }

    /** `clearFeatureCache`: drops the feature's entry. */
    method ClearFeatureCache(featureCode: string)
      modifies this
      ensures features == old(features) && subscriptions == old(subscriptions) && levelCache == old(levelCache)
      ensures featureCache == old(featureCache) - {featureCode}
      ensures old(Coherent()) ==> Coherent()
    {
      featureCache := featureCache - {featureCode};
    }

    /** `clearUserLevelCache`: drops the user's entry, so the next read goes to the subscriptions. */
    method ClearUserLevelCache(userId: string)
      modifies this
      ensures features == old(features) && subscriptions == old(subscriptions) && featureCache == old(featureCache)
      ensures levelCache == old(levelCache) - {userId}
      ensures forall now :: UserLevels(userId, now) == ActiveLevelIds(subscriptions, userId, now)
      ensures old(Coherent()) ==> Coherent()
    {
      levelCache := levelCache - {userId};
    }
  }
}
