/**
 * The storage configuration service: updating a storage configuration
 * inside one transaction (activating one deactivates the previously active
 * one), and mirroring the active engine and its domain into the dictionary
 * table. A failed update rolls the whole transaction back, so it leaves the
 * tables as they were.
 */
module StorageConfigs {
  import opened Wrappers

  /**
   * A `storage_config` row; `config` is its JSON object of string fields,
   * `None` when it is not an object.
   */
  datatype StorageConfig = StorageConfig(id: string, storageType: string, isActive: bool, config: Option<map<string, string>>)

  datatype Dict = Dict(key: string, group: string, value: string, description: string, isEnabled: bool, sort: int)

  datatype Tables = Tables(configs: seq<StorageConfig>, dicts: seq<Dict>)

  /**
   * The update request: `storageType`, when the body carries one, narrows the
   * rows with the id (an absent one drops out of the criteria); the other
   * fields are written when present.
   */
  datatype UpdateDto = UpdateDto(storageType: Option<string>, isActive: Option<bool>, config: Option<map<string, string>>)

  const Group := "storage_config"

  // ---------------------------------------------------------------- the dictionary

  /** `findOne(Dict, { where: { key, group } })`. */
  function FindDict(dicts: seq<Dict>, key: string, group: string): (r: Option<nat>)
    ensures r.Some? ==> r.value < |dicts| && dicts[r.value].key == key && dicts[r.value].group == group
    ensures r.Some? ==> forall j :: 0 <= j < r.value ==> !(dicts[j].key == key && dicts[j].group == group)
    ensures r.None? ==> forall j :: 0 <= j < |dicts| ==> !(dicts[j].key == key && dicts[j].group == group)
  {
    if dicts == [] then None
    else if dicts[0].key == key && dicts[0].group == group then Some(0)
    else match FindDict(dicts[1..], key, group)
      case None => None
      case Some(k) => Some(k + 1)
  }

  /** `upsertDict`: the row of the key and group gets the value, or a new row (sort 0) is added. */
  function UpsertDict(dicts: seq<Dict>, key: string, value: string, group: string, description: string): seq<Dict>
  {
    match FindDict(dicts, key, group)
    case Some(k) => dicts[k := dicts[k].(value := value, description := description, isEnabled := true)]
    case None => dicts + [Dict(key, group, value, description, true, 0)]
  }

  /** How many rows the key and group have. */
  function CountKey(dicts: seq<Dict>, key: string, group: string): nat {
    if dicts == [] then 0
    else (if dicts[0].key == key && dicts[0].group == group then 1 else 0) + CountKey(dicts[1..], key, group)
  }

  lemma {:induction false} CountKeyZero(dicts: seq<Dict>, key: string, group: string)
    ensures CountKey(dicts, key, group) == 0 <==> forall j :: 0 <= j < |dicts| ==> !(dicts[j].key == key && dicts[j].group == group)
  {
    if dicts != [] {
      CountKeyZero(dicts[1..], key, group);
    }
  }

  lemma {:induction false} CountKeyAppend(dicts: seq<Dict>, d: Dict, key: string, group: string)
    ensures CountKey(dicts + [d], key, group) == CountKey(dicts, key, group) + (if d.key == key && d.group == group then 1 else 0)
  {
    if dicts != [] {
      assert (dicts + [d])[1..] == dicts[1..] + [d];
      CountKeyAppend(dicts[1..], d, key, group);
    }
  }

  lemma {:induction false} CountKeyUpdate(dicts: seq<Dict>, k: nat, d: Dict, key: string, group: string)
    requires k < |dicts| && d.key == dicts[k].key && d.group == dicts[k].group
    ensures CountKey(dicts[k := d], key, group) == CountKey(dicts, key, group)
  {
    if k > 0 {
      assert dicts[k := d][1..] == dicts[1..][k - 1 := d];
      CountKeyUpdate(dicts[1..], k - 1, d, key, group);
    }
  }

  /**
   * After an upsert the key and group have a row holding the value, and
   * exactly one when there was at most one; other keys keep their rows.
   */
  lemma UpsertDictKeepsOne(dicts: seq<Dict>, key: string, value: string, group: string, description: string)
    requires CountKey(dicts, key, group) <= 1
    ensures var r := UpsertDict(dicts, key, value, group, description);
      && CountKey(r, key, group) == 1
      && (exists j :: 0 <= j < |r| && r[j].key == key && r[j].group == group && r[j].value == value)
      && (forall k, g :: !(k == key && g == group) ==> CountKey(r, k, g) == CountKey(dicts, k, g))
  {
    var r := UpsertDict(dicts, key, value, group, description);
    match FindDict(dicts, key, group)
    case Some(k) =>
      var d := dicts[k].(value := value, description := description, isEnabled := true);
      CountKeyUpdate(dicts, k, d, key, group);
      CountKeyZero(dicts, key, group);
      forall k2, g | !(k2 == key && g == group) ensures CountKey(r, k2, g) == CountKey(dicts, k2, g) {
        CountKeyUpdate(dicts, k, d, k2, g);
      }
      assert r[k].key == key && r[k].group == group && r[k].value == value;
    case None =>
      CountKeyZero(dicts, key, group);
      CountKeyAppend(dicts, Dict(key, group, value, description, true, 0), key, group);
      forall k2, g | !(k2 == key && g == group) ensures CountKey(r, k2, g) == CountKey(dicts, k2, g) {
        CountKeyAppend(dicts, Dict(key, group, value, description, true, 0), k2, g);
      }
      assert r[|dicts|].key == key;
  }

  /** The domain a configuration's JSON object carries, when it is set and non-empty. */
  function Domain(config: Option<map<string, string>>): Option<string> {
    if config.Some? && "domain" in config.value && config.value["domain"] != "" then Some(config.value["domain"]) else None
  }

  /** `syncToDict`: the engine key always, the domain key only when the configuration has a domain. */
  function SyncToDict(dicts: seq<Dict>, config: StorageConfig): seq<Dict> {
    var withEngine := UpsertDict(dicts, "engine", config.storageType, Group, "当前激活的存储引擎类型");
    match Domain(config.config)
    case None => withEngine
    case Some(domain) => UpsertDict(withEngine, "domain", domain, Group, "当前激活的存储域名")
  }

  /** The dictionary holds the active engine afterwards, and its domain when it has one; other keys are untouched. */
  lemma SyncToDictMeaning(dicts: seq<Dict>, config: StorageConfig)
    requires CountKey(dicts, "engine", Group) <= 1 && CountKey(dicts, "domain", Group) <= 1
    ensures var r := SyncToDict(dicts, config);
      && CountKey(r, "engine", Group) == 1
      && (exists j :: 0 <= j < |r| && r[j].key == "engine" && r[j].group == Group && r[j].value == config.storageType)
      && (Domain(config.config).Some? ==>
            CountKey(r, "domain", Group) == 1 &&
            exists j :: 0 <= j < |r| && r[j].key == "domain" && r[j].group == Group && r[j].value == Domain(config.config).value)
      && (Domain(config.config).None? ==> CountKey(r, "domain", Group) == CountKey(dicts, "domain", Group))
      && (forall k, g :: g != Group || (k != "engine" && k != "domain") ==> CountKey(r, k, g) == CountKey(dicts, k, g))
  {
    var withEngine := UpsertDict(dicts, "engine", config.storageType, Group, "当前激活的存储引擎类型");
    UpsertDictKeepsOne(dicts, "engine", config.storageType, Group, "当前激活的存储引擎类型");
    if Domain(config.config).Some? {
      var domain := Domain(config.config).value;
      UpsertDictKeepsOne(withEngine, "domain", domain, Group, "当前激活的存储域名");
      var r := SyncToDict(dicts, config);
      var j :| 0 <= j < |withEngine| && withEngine[j].key == "engine" && withEngine[j].group == Group &&
               withEngine[j].value == config.storageType;
      FindDictUnchanged(withEngine, "domain", domain, Group, "当前激活的存储域名", j);
    }
  }

  /** An upsert of another key leaves a row where it was. */
  lemma FindDictUnchanged(dicts: seq<Dict>, key: string, value: string, group: string, description: string, j: nat)
    requires j < |dicts| && dicts[j].key != key
    ensures var r := UpsertDict(dicts, key, value, group, description); j < |r| && r[j] == dicts[j]
  {
  }

  // ---------------------------------------------------------------- updating a configuration

  /** `findOne({ where: { isActive: true } })`. */
  function FindActive(configs: seq<StorageConfig>): (r: Option<nat>)
    ensures r.Some? ==> r.value < |configs| && configs[r.value].isActive
    ensures r.None? ==> forall j :: 0 <= j < |configs| ==> !configs[j].isActive
  {
    if configs == [] then None
    else if configs[0].isActive then Some(0)
    else match FindActive(configs[1..])
      case None => None
      case Some(k) => Some(k + 1)
  }

  function FindConfig(configs: seq<StorageConfig>, id: string): (r: Option<nat>)
    ensures r.Some? ==> r.value < |configs| && configs[r.value].id == id
    ensures r.None? ==> forall j :: 0 <= j < |configs| ==> configs[j].id != id
  {
    if configs == [] then None
    else if configs[0].id == id then Some(0)
    else match FindConfig(configs[1..], id)
      case None => None
      case Some(k) => Some(k + 1)
  }

  /** The dto's fields other than `storageType`, written onto one row. */
  function Apply(row: StorageConfig, dto: UpdateDto): StorageConfig {
    row.(isActive := if dto.isActive.Some? then dto.isActive.value else row.isActive,
         config := if dto.config.Some? then dto.config else row.config)
  }

  predicate Matches(row: StorageConfig, id: string, storageType: Option<string>) {
    row.id == id && (storageType.None? || row.storageType == storageType.value)
  }

  /** `update(StorageConfig, { id, storageType }, updateValue)` on every matching row. */
  function UpdateWhere(configs: seq<StorageConfig>, id: string, dto: UpdateDto): (r: seq<StorageConfig>)
    ensures |r| == |configs|
    ensures forall j :: 0 <= j < |r| ==> r[j] == if Matches(configs[j], id, dto.storageType) then Apply(configs[j], dto) else configs[j]
  {
    seq(|configs|, j requires 0 <= j < |configs| =>
      if Matches(configs[j], id, dto.storageType) then Apply(configs[j], dto) else configs[j])
  }

  predicate Affected(configs: seq<StorageConfig>, id: string, storageType: Option<string>) {
    exists j :: 0 <= j < |configs| && Matches(configs[j], id, storageType)
  }

  /** A different active row is deactivated when the dto activates. */
  function Deactivate(configs: seq<StorageConfig>, a: nat, id: string, dto: UpdateDto): (r: seq<StorageConfig>)
    requires a < |configs|
    ensures |r| == |configs|
    ensures forall j :: 0 <= j < |r| ==> r[j].id == configs[j].id && r[j].storageType == configs[j].storageType
  {
    if configs[a].id != id && dto.isActive == Some(true) then configs[a := configs[a].(isActive := false)] else configs
  }

  /**
   * `updateConfig(id, dto)`: with no active row the lookup fails; a
   * different active row is deactivated when the dto activates; no row with
   * the id and storage type fails the update; an activation then mirrors
   * the row into the dictionary. Any failure leaves the tables unchanged.
   */
  function UpdateConfig(t: Tables, id: string, dto: UpdateDto): Result<Tables, string>
  {
    match FindActive(t.configs)
    case None => Err("no active storage configuration")
    case Some(a) =>
      var configs1 := Deactivate(t.configs, a, id, dto);
      if !Affected(configs1, id, dto.storageType) then Err("Update storage config failed")
      else
        var configs2 := UpdateWhere(configs1, id, dto);
        if dto.isActive == Some(true) then
          match FindConfig(configs2, id)
          case None => Ok(Tables(configs2, t.dicts))
          case Some(k) => Ok(Tables(configs2, SyncToDict(t.dicts, configs2[k])))
        else Ok(Tables(configs2, t.dicts))
  }

  predicate UniqueIds(configs: seq<StorageConfig>) {
    forall i, j :: 0 <= i < j < |configs| ==> configs[i].id != configs[j].id
  }

  predicate AtMostOneActive(configs: seq<StorageConfig>) {
    forall i, j :: 0 <= i < j < |configs| && configs[i].isActive ==> !configs[j].isActive
  }

  lemma UniqueIdAt(configs: seq<StorageConfig>, i: nat, j: nat)
    requires UniqueIds(configs) && i < |configs| && j < |configs|
    ensures configs[i].id == configs[j].id ==> i == j
  {
  }

  lemma OneActiveAt(configs: seq<StorageConfig>, i: nat, j: nat)
    requires AtMostOneActive(configs) && i < |configs| && j < |configs|
    ensures configs[i].isActive && configs[j].isActive ==> i == j
  {
  }

  /** After deactivating, an activating update finds only rows with its id active. */
  lemma DeactivateLeavesOnlyId(configs: seq<StorageConfig>, a: nat, id: string, dto: UpdateDto)
    requires a < |configs| && configs[a].isActive && AtMostOneActive(configs) && dto.isActive == Some(true)
    ensures var r := Deactivate(configs, a, id, dto); forall j :: 0 <= j < |r| && r[j].isActive ==> r[j].id == id
  {
    var r := Deactivate(configs, a, id, dto);
    forall j | 0 <= j < |r| && r[j].isActive ensures r[j].id == id {
      OneActiveAt(configs, a, j);
    }
  }

  /** Updating a row that exists, with unique ids, makes it the only active one when the dto activates. */
  lemma UpdateWhereActivates(configs: seq<StorageConfig>, id: string, dto: UpdateDto)
    requires UniqueIds(configs) && Affected(configs, id, dto.storageType) && dto.isActive == Some(true)
    requires forall j :: 0 <= j < |configs| && configs[j].isActive ==> configs[j].id == id
    ensures var r := UpdateWhere(configs, id, dto); forall j :: 0 <= j < |r| ==> (r[j].isActive <==> r[j].id == id)
  {
    var m :| 0 <= m < |configs| && Matches(configs[m], id, dto.storageType);
    var r := UpdateWhere(configs, id, dto);
    forall j | 0 <= j < |r| ensures r[j].isActive <==> r[j].id == id {
      UniqueIdAt(configs, j, m);
    }
  }

  /** An update that does not activate only ever clears the active flag. */
  lemma UpdateWhereNoActivation(configs: seq<StorageConfig>, id: string, dto: UpdateDto)
    requires AtMostOneActive(configs) && dto.isActive != Some(true)
    ensures AtMostOneActive(UpdateWhere(configs, id, dto))
  {
    var r := UpdateWhere(configs, id, dto);
    assert forall j :: 0 <= j < |r| && r[j].isActive ==> configs[j].isActive;
  }

  /**
   * An update keeps the ids unique and at most one configuration active;
   * activating makes the updated configuration the only active one.
   */
  lemma UpdateConfigKeepsOneActive(t: Tables, id: string, dto: UpdateDto)
    requires UniqueIds(t.configs) && AtMostOneActive(t.configs) && UpdateConfig(t, id, dto).Ok?
    ensures var r := UpdateConfig(t, id, dto).value;
      && UniqueIds(r.configs) && AtMostOneActive(r.configs)
      && (dto.isActive == Some(true) ==> forall j :: 0 <= j < |r.configs| ==> (r.configs[j].isActive <==> r.configs[j].id == id))
  {
    var a := FindActive(t.configs).value;
    var configs1 := Deactivate(t.configs, a, id, dto);
    var configs2 := UpdateWhere(configs1, id, dto);
    assert UpdateConfig(t, id, dto).value.configs == configs2;
    assert UniqueIds(configs1);
    assert UniqueIds(configs2);
    if dto.isActive == Some(true) {
      DeactivateLeavesOnlyId(t.configs, a, id, dto);
      UpdateWhereActivates(configs1, id, dto);
      assert AtMostOneActive(configs2);
    } else {
      UpdateWhereNoActivation(configs1, id, dto);
    }
  }

  /** An update that finds no row with the id and storage type fails, whatever else it asked for. */
  lemma UpdateConfigUnmatched(t: Tables, id: string, dto: UpdateDto)
    requires FindActive(t.configs).Some?
    requires forall j :: 0 <= j < |t.configs| ==> !Matches(t.configs[j], id, dto.storageType)
    ensures UpdateConfig(t, id, dto) == Err("Update storage config failed")
  {
  }

  /** Without an active configuration the update fails before changing anything. */
  lemma UpdateConfigNeedsActive(t: Tables, id: string, dto: UpdateDto)
    requires forall j :: 0 <= j < |t.configs| ==> !t.configs[j].isActive
    ensures UpdateConfig(t, id, dto).Err?
  {
  }

  /** The dictionary changes only when a configuration is activated, and then holds the engine of the row with the id. */
  lemma UpdateConfigDict(t: Tables, id: string, dto: UpdateDto)
    requires UpdateConfig(t, id, dto).Ok?
    requires UniqueIds(t.configs) && CountKey(t.dicts, "engine", Group) <= 1 && CountKey(t.dicts, "domain", Group) <= 1
    ensures var r := UpdateConfig(t, id, dto).value;
      && (dto.isActive != Some(true) ==> r.dicts == t.dicts)
      && (dto.isActive == Some(true) ==>
            CountKey(r.dicts, "engine", Group) == 1 &&
            exists j, k :: 0 <= j < |r.dicts| && 0 <= k < |t.configs| && r.dicts[j].key == "engine" && r.dicts[j].group == Group &&
                           t.configs[k].id == id && r.dicts[j].value == t.configs[k].storageType &&
                           (dto.storageType.Some? ==> r.dicts[j].value == dto.storageType.value))
  {
    if dto.isActive == Some(true) {
      var a := FindActive(t.configs).value;
      var configs1 := Deactivate(t.configs, a, id, dto);
      var configs2 := UpdateWhere(configs1, id, dto);
      var m :| 0 <= m < |configs1| && Matches(configs1[m], id, dto.storageType);
      var k := FindConfig(configs2, id).value;
      assert configs2[k].id == id;
      assert UniqueIds(configs1);
      UniqueIdAt(configs1, k, m);
      SyncToDictMeaning(t.dicts, configs2[k]);
    }
  }
}
