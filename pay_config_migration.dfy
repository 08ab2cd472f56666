/**
 * The 25.3.0 migration of the payment configuration table: `up` folds the
 * legacy WeChat Pay columns into the `config` JSON column and drops them;
 * `down` restores them from `config` and drops that column. A row's `config`
 * column is read as an object, or as text that `JSON.parse` (a parameter,
 * `None` when it throws) turns into one.
 */
module PayConfigMigration {
  import opened Wrappers

  const Wechat := "wechat"

  /** The legacy columns, in the order `up` copies them. */
  const LegacyFields: seq<string> := ["appId", "mchId", "apiKey", "paySignKey", "cert", "merchantType", "payVersion", "payAuthDir"]

  /** The `config` column as the driver hands it over. */
  datatype ConfigColumn = Null | Text(text: string) | Object(fields: map<string, string>)

  /** A row before `up`; `legacy` holds the legacy columns that are not null. */
  datatype LegacyRow = LegacyRow(id: string, payType: string, legacy: map<string, string>, config: ConfigColumn)

  /** A row after `up`. */
  datatype MovedRow = MovedRow(id: string, payType: string, config: ConfigColumn)

  /** A row after `down`; `legacy` holds the legacy columns that are not null. */
  datatype RestoredRow = RestoredRow(id: string, payType: string, legacy: map<string, string>)

  /** Whether the key holds a truthy string. */
  predicate TruthyIn(m: map<string, string>, k: string) {
    k in m && m[k] != ""
  }

  predicate ColumnTruthy(c: ConfigColumn) {
    c.Object? || (c.Text? && c.text != "")
  }

  /** The existing configuration `up` starts from: `{}` when the column is empty or does not parse. */
  function ParsedConfig(c: ConfigColumn, parse: string -> Option<map<string, string>>): (r: map<string, string>)
    ensures !ColumnTruthy(c) ==> r == map[]
    ensures c.Object? ==> r == c.fields
    ensures c.Text? && c.text != "" && parse(c.text).None? ==> r == map[]
  {
    match c
    case Null => map[]
    case Object(fields) => fields
    case Text(s) => if s == "" then map[] else if parse(s).Some? then parse(s).value else map[]
  }

  /** Copies each truthy legacy field over the configuration, one field after the other. */
  function Overlay(config: map<string, string>, legacy: map<string, string>, fields: seq<string>): (r: map<string, string>)
    ensures forall k :: k in r <==> k in config || (k in fields && TruthyIn(legacy, k))
    ensures forall k :: k in r ==> r[k] == if k in fields && TruthyIn(legacy, k) then legacy[k] else config[k]
    decreases |fields|
  {
    if fields == [] then config
    else
      var f := fields[0];
      assert forall k :: k in fields <==> k == f || k in fields[1..];
      Overlay(if TruthyIn(legacy, f) then config[f := legacy[f]] else config, legacy, fields[1..])
  }

  /** One row of `up`: WeChat rows gain their truthy legacy fields, the others keep the parsed configuration. */
  function UpRow(row: LegacyRow, parse: string -> Option<map<string, string>>): MovedRow {
    var config := ParsedConfig(row.config, parse);
    var moved := if row.payType == Wechat then Overlay(config, row.legacy, LegacyFields) else config;
    MovedRow(row.id, row.payType, Object(moved))
  }

  /** The eight `if (row.f) wechatConfig.f = row.f` steps of `up`. */
  method OverlayLegacy(config: map<string, string>, legacy: map<string, string>, fields: seq<string>)
    returns (wechatConfig: map<string, string>)
    ensures wechatConfig == Overlay(config, legacy, fields)
  {
    wechatConfig := config;
    for f := 0 to |fields|
      invariant Overlay(wechatConfig, legacy, fields[f..]) == Overlay(config, legacy, fields)
    {
      var key := fields[f];
      OverlayStep(wechatConfig, legacy, fields[f..]);
      assert fields[f..][1..] == fields[f + 1..];
      if TruthyIn(legacy, key) {
        wechatConfig := wechatConfig[key := legacy[key]];
      }
    }
  }

  lemma OverlayStep(config: map<string, string>, legacy: map<string, string>, fields: seq<string>)
    requires fields != []
    ensures Overlay(config, legacy, fields) ==
      Overlay(if TruthyIn(legacy, fields[0]) then config[fields[0] := legacy[fields[0]]] else config, legacy, fields[1..])
  {
  }

  /** The body of `up`'s loop for one row. */
  method UpOne(row: LegacyRow, parse: string -> Option<map<string, string>>) returns (moved: MovedRow)
    ensures moved == UpRow(row, parse)
  {
    var config := map[];
    if row.config.Object? {
      config := row.config.fields;
    } else if row.config.Text? && row.config.text != "" {
      var parsed := parse(row.config.text);
      if parsed.Some? {
        config := parsed.value;
      }
    }
    assert config == ParsedConfig(row.config, parse);
    if row.payType == Wechat {
      config := OverlayLegacy(config, row.legacy, LegacyFields);
    }
    moved := MovedRow(row.id, row.payType, Object(config));
  }

  /** `up`: every row is rewritten, in order, and the legacy columns go. */
  method Up(rows: seq<LegacyRow>, parse: string -> Option<map<string, string>>) returns (moved: seq<MovedRow>)
    ensures |moved| == |rows|
    ensures forall i :: 0 <= i < |rows| ==> moved[i] == UpRow(rows[i], parse)
  {
    moved := [];
    for i := 0 to |rows|
      invariant |moved| == i
      invariant forall j :: 0 <= j < i ==> moved[j] == UpRow(rows[j], parse)
    {
      var m := UpOne(rows[i], parse);
      moved := moved + [m];
    }
  }

  /**
   * A WeChat row's configuration holds each truthy legacy field under its
   * name and otherwise what the old configuration held; other rows keep the
   * old configuration, `{}` when it was empty or unparsable.
   */
  lemma UpRowMeaning(row: LegacyRow, parse: string -> Option<map<string, string>>)
    ensures var m := UpRow(row, parse);
      && m.id == row.id && m.payType == row.payType && m.config.Object?
      && (row.payType == Wechat ==>
            forall k :: (k in m.config.fields <==> k in ParsedConfig(row.config, parse) || (k in LegacyFields && TruthyIn(row.legacy, k))) &&
                        (k in LegacyFields && TruthyIn(row.legacy, k) ==> m.config.fields[k] == row.legacy[k]))
      && (row.payType != Wechat ==> m.config.fields == ParsedConfig(row.config, parse))
      && (!ColumnTruthy(row.config) && row.payType != Wechat ==> m.config.fields == map[])
  {
  }

  /** `config.f || null` for every legacy field: the truthy ones. */
  function Restore(config: map<string, string>): (r: map<string, string>)
    ensures forall k :: k in r ==> k in LegacyFields && k in config && r[k] == config[k] && r[k] != ""
    ensures forall k :: k in LegacyFields && TruthyIn(config, k) ==> k in r
  {
    map k | k in LegacyFields && TruthyIn(config, k) :: config[k]
  }

  /** One row of `down`: an empty or unparsable configuration is skipped, leaving the re-added columns null. */
  function DownRow(row: MovedRow, parse: string -> Option<map<string, string>>): RestoredRow {
    var legacy :=
      match row.config
      case Null => map[]
      case Text(s) => if s == "" || parse(s).None? then map[] else Restore(parse(s).value)
      case Object(fields) => Restore(fields);
    RestoredRow(row.id, row.payType, legacy)
  }

  /** `down`: every row, in order, gets its legacy columns back. */
  method Down(rows: seq<MovedRow>, parse: string -> Option<map<string, string>>) returns (restored: seq<RestoredRow>)
    ensures |restored| == |rows|
    ensures forall i :: 0 <= i < |rows| ==> restored[i] == DownRow(rows[i], parse)
  {
    restored := [];
    for i := 0 to |rows|
      invariant |restored| == i
      invariant forall j :: 0 <= j < i ==> restored[j] == DownRow(rows[j], parse)
    {
      var row := rows[i];
      if !ColumnTruthy(row.config) {
        restored := restored + [RestoredRow(row.id, row.payType, map[])];
        continue;
      }
      var config: map<string, string>;
      if row.config.Text? {
        var parsed := parse(row.config.text);
        if parsed.None? {
          restored := restored + [RestoredRow(row.id, row.payType, map[])];
          continue;
        }
        config := parsed.value;
      } else {
        config := row.config.fields;
      }
      restored := restored + [RestoredRow(row.id, row.payType, Restore(config))];
    }
  }

  /** `down` yields only truthy legacy fields, and none at all for an empty or unparsable configuration. */
  lemma DownRowMeaning(row: MovedRow, parse: string -> Option<map<string, string>>)
    ensures var r := DownRow(row, parse);
      && r.id == row.id && r.payType == row.payType
      && (forall k :: k in r.legacy ==> k in LegacyFields && r.legacy[k] != "")
      && (!ColumnTruthy(row.config) ==> r.legacy == map[])
      && (row.config.Text? && row.config.text != "" && parse(row.config.text).None? ==> r.legacy == map[])
      && (row.config.Object? ==> forall k :: k in LegacyFields ==> (k in r.legacy <==> TruthyIn(row.config.fields, k)))
  {
  }

  /**
   * `down` after `up` gives a WeChat row back every truthy legacy field;
   * a field that was empty or null comes back from the old configuration
   * when that held it.
   */
  lemma DownAfterUp(row: LegacyRow, parse: string -> Option<map<string, string>>)
    requires row.payType == Wechat
    ensures var back := DownRow(UpRow(row, parse), parse);
      && back.id == row.id
      && (forall k :: k in LegacyFields && TruthyIn(row.legacy, k) ==> k in back.legacy && back.legacy[k] == row.legacy[k])
      && (forall k :: k in LegacyFields && !TruthyIn(row.legacy, k) ==>
            (k in back.legacy <==> TruthyIn(ParsedConfig(row.config, parse), k)))
  {
    var config := ParsedConfig(row.config, parse);
    var moved := Overlay(config, row.legacy, LegacyFields);
    assert UpRow(row, parse).config == Object(moved);
  }

  /** A row of another payment type loses its legacy fields unless its old configuration held them. */
  lemma DownAfterUpOther(row: LegacyRow, parse: string -> Option<map<string, string>>)
    requires row.payType != Wechat
    ensures DownRow(UpRow(row, parse), parse).legacy == Restore(ParsedConfig(row.config, parse))
  {
  }
}
