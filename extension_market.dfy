/**
 * The extension market's list of applications: the installed extensions,
 * each with its update and enabled state, followed by the market items that
 * are not installed. The market is asked only when a platform secret is
 * set, and a failed request counts as an empty market. The semver library,
 * the compatibility check and the enabled flags of `extensions.json` are
 * parameters.
 */
module ExtensionMarket {
  import opened Wrappers
  import opened Versions

  const Disabled := 0
  const Enabled := 1

  /** `isVersionInRange`: false for an invalid version or range, else whether the version satisfies the range. */
  function IsVersionInRange(semver: Semver, version: string, range: string): (r: bool)
    ensures !semver.valid(version) || !semver.validRange(range) ==> !r
    ensures r <==> semver.valid(version) && semver.validRange(range) && semver.satisfies(version, range)
  {
    if !semver.valid(version) then false
    else if !semver.validRange(range) then false
    else semver.satisfies(version, range)
  }

  datatype InstalledExtension = InstalledExtension(identifier: string, version: string, isLocal: bool, status: int)

  datatype MarketItem = MarketItem(id: Option<string>, identifier: string, version: string, isCompatible: Option<bool>)

  /** One entry of the merged list. */
  datatype Listed = Listed(
    identifier: string, version: string, isLocal: bool, status: int, isInstalled: bool,
    isCompatible: Option<bool>, latestVersion: Option<string>, hasUpdate: bool)

  /** `marketVersionMap.get(identifier)`: the version of the last market item with that identifier. */
  function MarketVersion(market: seq<MarketItem>, identifier: string): (r: Option<string>)
    ensures r.Some? <==> exists i :: 0 <= i < |market| && market[i].identifier == identifier
    ensures r.Some? ==> exists i :: 0 <= i < |market| && market[i].identifier == identifier && market[i].version == r.value &&
                                    forall j :: i < j < |market| ==> market[j].identifier != identifier
  {
    if market == [] then None
    else
      var last := market[|market| - 1];
      var prefix := market[..|market| - 1];
      if last.identifier == identifier then Some(last.version)
      else
        var r := MarketVersion(prefix, identifier);
        assert forall i :: 0 <= i < |prefix| ==> prefix[i] == market[i];
        r
  }

  predicate IsInstalled(installed: seq<InstalledExtension>, identifier: string) {
    exists k :: 0 <= k < |installed| && installed[k].identifier == identifier
  }

  /** A market item that is not installed, as listed. */
  function MarketEntry(item: MarketItem): Listed {
    Listed(item.identifier, item.version, false, Disabled, false,
           if item.isCompatible == Some(true) then Some(true) else None, Some(item.version), false)
  }

  function MarketOnly(installed: seq<InstalledExtension>, market: seq<MarketItem>): (r: seq<Listed>)
    ensures forall e :: e in r ==> !IsInstalled(installed, e.identifier)
    ensures forall e :: e in r <==> exists item :: item in market && !IsInstalled(installed, item.identifier) && e == MarketEntry(item)
  {
    if market == [] then []
    else
      assert forall x :: x in market <==> x == market[0] || x in market[1..];
      (if IsInstalled(installed, market[0].identifier) then [] else [MarketEntry(market[0])]) + MarketOnly(installed, market[1..])
  }

  /** Whether a newer market version exists for an installed, non-local extension. */
  function HasUpdate(semver: Semver, ext: InstalledExtension, market: seq<MarketItem>): bool {
    if ext.isLocal then false
    else
      var marketVersion := MarketVersion(market, ext.identifier);
      marketVersion.Some? && marketVersion.value != "" &&
      semver.valid(marketVersion.value) && semver.valid(ext.version) && semver.gt(marketVersion.value, ext.version)
  }

  /** An installed extension, as listed: the enabled flag wins over the stored status unless it is null. */
  function InstalledEntry(semver: Semver, ext: InstalledExtension, market: seq<MarketItem>,
                          compatible: string -> bool, enabled: string -> Option<bool>): Listed
  {
    var marketVersion := if ext.isLocal then None else MarketVersion(market, ext.identifier);
    var latestVersion := if marketVersion.Some? && marketVersion.value != "" then marketVersion else None;
    var enabledStatus := enabled(ext.identifier);
    var status := if enabledStatus.None? then ext.status else if enabledStatus.value then Enabled else Disabled;
    Listed(ext.identifier, ext.version, ext.isLocal, status, true, Some(compatible(ext.identifier)),
           latestVersion, HasUpdate(semver, ext, market))
  }

  function InstalledList(semver: Semver, installed: seq<InstalledExtension>, market: seq<MarketItem>,
                         compatible: string -> bool, enabled: string -> Option<bool>): (r: seq<Listed>)
    ensures |r| == |installed|
    ensures forall i :: 0 <= i < |r| ==> r[i] == InstalledEntry(semver, installed[i], market, compatible, enabled)
  {
    seq(|installed|, i requires 0 <= i < |installed| => InstalledEntry(semver, installed[i], market, compatible, enabled))
  }

  /**
   * `getMixedApplicationList`: `platformSecret` is the stored secret and
   * `fetched` the market request's answer, `None` when it failed.
   */
  function MixedApplicationList(semver: Semver, platformSecret: Option<string>, installed: seq<InstalledExtension>,
                                fetched: Option<seq<MarketItem>>, compatible: string -> bool,
                                enabled: string -> Option<bool>): seq<Listed>
  {
    var market := if platformSecret.Some? && platformSecret.value != "" && fetched.Some? then fetched.value else [];
    InstalledList(semver, installed, market, compatible, enabled) + MarketOnly(installed, market)
  }

  /**
   * The list is the installed extensions in order, all marked installed,
   * followed by the market items that are not installed, each marked not
   * installed, disabled and without update; no identifier of the second part
   * is installed.
   */
  lemma MixedListShape(semver: Semver, platformSecret: Option<string>, installed: seq<InstalledExtension>,
                       fetched: Option<seq<MarketItem>>, compatible: string -> bool, enabled: string -> Option<bool>)
    ensures var r := MixedApplicationList(semver, platformSecret, installed, fetched, compatible, enabled);
      && |r| >= |installed|
      && (forall i :: 0 <= i < |installed| ==> r[i].identifier == installed[i].identifier && r[i].isInstalled)
      && (forall i :: |installed| <= i < |r| ==>
            !r[i].isInstalled && r[i].status == Disabled && !r[i].hasUpdate &&
            r[i].latestVersion == Some(r[i].version) && !IsInstalled(installed, r[i].identifier))
  {
    var r := MixedApplicationList(semver, platformSecret, installed, fetched, compatible, enabled);
    var market := if platformSecret.Some? && platformSecret.value != "" && fetched.Some? then fetched.value else [];
    var tail := MarketOnly(installed, market);
    forall i | |installed| <= i < |r|
      ensures !r[i].isInstalled && r[i].status == Disabled && !r[i].hasUpdate &&
              r[i].latestVersion == Some(r[i].version) && !IsInstalled(installed, r[i].identifier)
    {
      assert r[i] == tail[i - |installed|];
      assert r[i] in tail;
    }
  }

  /** Without a platform secret, or when the market cannot be reached, only the installed extensions are listed. */
  lemma NoMarketListsInstalledOnly(semver: Semver, platformSecret: Option<string>, installed: seq<InstalledExtension>,
                                   fetched: Option<seq<MarketItem>>, compatible: string -> bool, enabled: string -> Option<bool>)
    requires platformSecret.None? || platformSecret.value == "" || fetched.None?
    ensures var r := MixedApplicationList(semver, platformSecret, installed, fetched, compatible, enabled);
      |r| == |installed| && forall i :: 0 <= i < |r| ==> !r[i].hasUpdate && r[i].latestVersion.None?
  {
  }

  /** Every market item appears exactly when it is not installed. */
  lemma MarketItemsListed(semver: Semver, platformSecret: string, installed: seq<InstalledExtension>,
                          market: seq<MarketItem>, compatible: string -> bool, enabled: string -> Option<bool>, item: MarketItem)
    requires platformSecret != "" && item in market
    ensures !IsInstalled(installed, item.identifier) ==>
      MarketEntry(item) in MixedApplicationList(semver, Some(platformSecret), installed, Some(market), compatible, enabled)
  {
  }

  /**
   * An installed extension shows an update iff it is not local, the market
   * has a non-empty version for it, both versions are valid and the
   * market's is greater; a null enabled flag keeps the stored status.
   */
  lemma InstalledEntryMeaning(semver: Semver, ext: InstalledExtension, market: seq<MarketItem>,
                              compatible: string -> bool, enabled: string -> Option<bool>)
    ensures var e := InstalledEntry(semver, ext, market, compatible, enabled);
      && (e.hasUpdate <==>
            !ext.isLocal && (exists i :: 0 <= i < |market| && market[i].identifier == ext.identifier) &&
            var mv := MarketVersion(market, ext.identifier).value;
            mv != "" && semver.valid(mv) && semver.valid(ext.version) && semver.gt(mv, ext.version))
      && (ext.isLocal ==> !e.hasUpdate && e.latestVersion.None?)
      && (enabled(ext.identifier).None? ==> e.status == ext.status)
      && (enabled(ext.identifier) == Some(true) ==> e.status == Enabled)
      && (enabled(ext.identifier) == Some(false) ==> e.status == Disabled)
  {
  }
}
