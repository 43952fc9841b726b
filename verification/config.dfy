/**
 * The user configuration (`UserConfig`): the most-recently-opened wallet list per
 * network, the `get` accessor, restoring a configuration from its dump, and the
 * version-gated migration of an old dump.
 *
 * A configuration's attributes are dynamic in the source (`setattr`, `hasattr`), so
 * the class keeps them in one map from attribute name to value.
 */
module Config {
  import opened Wrappers
  import opened Strings
  import opened Versions
  import opened Collections

  datatype Network = Bitcoin | Regtest | Signet | Testnet

  const AllNetworks: set<Network> := {Bitcoin, Regtest, Signet, Testnet}

  /** `network.name`. */
  function NetworkName(n: Network): string {
    match n
    case Bitcoin => "BITCOIN"
    case Regtest => "REGTEST"
    case Signet => "SIGNET"
    case Testnet => "TESTNET"
  }

  /** `bdk.Network._member_map_.get(name)`. */
  function NetworkFromName(name: string): (r: Option<Network>)
    ensures r.Some? ==> NetworkName(r.value) == name
    ensures forall n :: NetworkName(n) == name ==> r == Some(n)
  {
    if name == "BITCOIN" then Some(Bitcoin)
    else if name == "REGTEST" then Some(Regtest)
    else if name == "SIGNET" then Some(Signet)
    else if name == "TESTNET" then Some(Testnet)
    else None
  }

  /** A `collections.deque` bounded by `maxlen`. */
  datatype Deque = Deque(items: seq<Value>, maxlen: nat)

  /** The attribute and dump values the configuration handles. */
  datatype Value =
    | NoneV
    | BoolV(b: bool)
    | IntV(i: int)
    | StrV(s: string)
    | ListV(elements: seq<Value>)
    | DictV(entries: map<string, Value>)
    | NetV(net: Network)
    | NetworkConfigV(network: Network)
    | DequesV(deques: map<Network, Deque>)
    | OpaqueV(tag: string)

  /** The last `n` elements of `s`, in order: what a deque with `maxlen = n` keeps. */
  function LastN<T>(s: seq<T>, n: nat): (r: seq<T>)
    ensures |r| == if |s| <= n then |s| else n
    ensures |s| <= n ==> r == s
    ensures r == s[|s| - |r|..]
  {
    if |s| <= n then s else s[|s| - n..]
  }

  /** `deque.append(x)`: when the deque is full, the oldest (leftmost) element is dropped. */
  function Append(d: Deque, x: Value): Deque {
    Deque(LastN(d.items + [x], d.maxlen), d.maxlen)
  }

  /** `deque.remove(x)`: removes the first occurrence of `x`. */
  function RemoveFirst(s: seq<Value>, x: Value): seq<Value> {
    if s == [] then []
    else if s[0] == x then s[1..]
    else [s[0]] + RemoveFirst(s[1..], x)
  }

  /** The deque after `add_recently_open_wallet`: remove `x` if present, then append it. */
  function Touch(d: Deque, x: Value): Deque {
    Append(if x in d.items then Deque(RemoveFirst(d.items, x), d.maxlen) else d, x)
  }

  lemma {:induction false} RemoveFirstPresent(s: seq<Value>, x: Value)
    requires x in s
    ensures |RemoveFirst(s, x)| == |s| - 1
    ensures multiset(RemoveFirst(s, x)) == multiset(s) - multiset{x}
  {
    if s[0] != x {
      RemoveFirstPresent(s[1..], x);
      assert s == [s[0]] + s[1..];
    } else {
      assert s == [x] + s[1..];
    }
  }

  lemma {:induction false} RemoveFirstNoDuplicates(s: seq<Value>, x: Value)
    requires NoDuplicates(s)
    ensures NoDuplicates(RemoveFirst(s, x)) && x !in RemoveFirst(s, x)
    ensures multiset(RemoveFirst(s, x)) <= multiset(s)
  {
    if s != [] {
      assert s == [s[0]] + s[1..];
      if s[0] == x {
        assert forall i :: 1 <= i < |s| ==> s[i] != s[0];
      } else {
        assert NoDuplicates(s[1..]);
        RemoveFirstNoDuplicates(s[1..], x);
        var r := RemoveFirst(s[1..], x);
        assert s == [s[0]] + s[1..];
        assert s[0] !in s[1..];
        assert s[0] !in r by {
          assert multiset(r)[s[0]] <= multiset(s[1..])[s[0]] == 0;
        }
      }
    }
  }

  /** Re-adding a path that is already listed moves it to the end: nothing is duplicated, lost or dropped. */
  lemma TouchExisting(d: Deque, x: Value)
    requires x in d.items && |d.items| <= d.maxlen
    ensures Touch(d, x).items == RemoveFirst(d.items, x) + [x]
    ensures |Touch(d, x).items| == |d.items|
    ensures multiset(Touch(d, x).items) == multiset(d.items)
  {
    RemoveFirstPresent(d.items, x);
  }

  /** A new path is appended last; when the deque is full its oldest entry is dropped. */
  lemma TouchNew(d: Deque, x: Value)
    requires x !in d.items && |d.items| <= d.maxlen
    ensures |d.items| < d.maxlen ==> Touch(d, x).items == d.items + [x]
    ensures 0 < |d.items| == d.maxlen ==> Touch(d, x).items == d.items[1..] + [x]
  {
  }

  /** The recent list never grows beyond its bound, and a touched path is always the newest entry. */
  lemma TouchBounded(d: Deque, x: Value)
    requires |d.items| <= d.maxlen
    ensures |Touch(d, x).items| <= d.maxlen && Touch(d, x).maxlen == d.maxlen
    ensures d.maxlen > 0 ==> Touch(d, x).items[|Touch(d, x).items| - 1] == x
  {
    if x in d.items {
      RemoveFirstPresent(d.items, x);
    }
  }

  /** A list without duplicates stays without duplicates. */
  lemma TouchNoDuplicates(d: Deque, x: Value)
    requires NoDuplicates(d.items)
    ensures NoDuplicates(Touch(d, x).items)
  {
    var base := if x in d.items then RemoveFirst(d.items, x) else d.items;
    if x in d.items {
      RemoveFirstNoDuplicates(d.items, x);
    }
    var full := base + [x];
    assert NoDuplicates(full);
    var r := LastN(full, d.maxlen);
    assert forall i :: 0 <= i < |r| ==> r[i] == full[|full| - |r| + i];
  }

  /** The deques `__init__` creates: an empty one of length 15 for each network. */
  function FreshRecentLists(): map<Network, Deque> {
    map[Bitcoin := Deque([], 15), Regtest := Deque([], 15), Signet := Deque([], 15), Testnet := Deque([], 15)]
  }

  /**
   * The attributes `UserConfig.__init__` sets. The default network depends on
   * `DEFAULT_MAINNET` and the data directory on the platform; both are parameters.
   */
  function Defaults(defaultMainnet: bool, dataDir: string): (m: map<string, Value>)
    ensures "recently_open_wallets" in m && m["recently_open_wallets"] == DequesV(FreshRecentLists())
    ensures "network" in m && m["network"] == NetV(if defaultMainnet then Bitcoin else Testnet)
    ensures "language_code" in m && m["language_code"] == NoneV
    ensures "network_configs" in m && m["network_configs"] == OpaqueV("NetworkConfigs")
    ensures "last_wallet_files" in m && m["last_wallet_files"] == DictV(map[])
    ensures "opened_txlike" in m && m["opened_txlike"] == DictV(map[])
    ensures "data_dir" in m && m["data_dir"] == StrV(dataDir)
    ensures "is_maximized" in m && m["is_maximized"] == BoolV(false)
    ensures |m| == 8
  {
    map[
      "network_configs" := OpaqueV("NetworkConfigs"),
      "network" := NetV(if defaultMainnet then Bitcoin else Testnet),
      "last_wallet_files" := DictV(map[]),
      "opened_txlike" := DictV(map[]),
      "data_dir" := StrV(dataDir),
      "is_maximized" := BoolV(false),
      "recently_open_wallets" := DequesV(FreshRecentLists()),
      "language_code" := NoneV
    ]
  }

  /** `base` after `setattr(u, k, v)` for every `k, v` of `dct` whose value is not `None`. */
  function Overlay(base: map<string, Value>, dct: map<string, Value>): (m: map<string, Value>)
    ensures forall k :: k in dct && !dct[k].NoneV? ==> k in m && m[k] == dct[k]
    ensures forall k :: k in base && (k !in dct || dct[k].NoneV?) ==> k in m && m[k] == base[k]
    ensures forall k :: k in m ==> k in base || (k in dct && !dct[k].NoneV?)
  {
    map k | k in base.Keys + dct.Keys && (k in base || !dct[k].NoneV?) ::
      if k in dct && !dct[k].NoneV? then dct[k] else base[k]
  }

  /** The deques `from_dump` builds from one dumped list: its last 5 entries, with room for 5. */
  function RestoreDeque(v: Value): Option<Deque> {
    if v.ListV? then Some(Deque(LastN(v.elements, 5), 5)) else None
  }

  /**
   * `recently_open_wallets` as `from_dump` rewrites it: every key must name a network
   * (`KeyError` otherwise) and every value be a list. A missing entry reads as one empty
   * list per network.
   */
  function RestoreRecentLists(dct: map<string, Value>): (r: Result<Value>)
    ensures r.Ok? ==> r.value.DequesV?
    ensures "recently_open_wallets" in dct && !dct["recently_open_wallets"].DictV? ==> r == Err("AttributeError")
    ensures "recently_open_wallets" in dct && dct["recently_open_wallets"].DictV? ==>
      var dumped := dct["recently_open_wallets"].entries;
      r.Ok? <==> forall k :: k in dumped ==> NetworkFromName(k).Some? && dumped[k].ListV?
  {
    var src :=
      if "recently_open_wallets" in dct then dct["recently_open_wallets"]
      else DictV(map["BITCOIN" := ListV([]), "REGTEST" := ListV([]), "SIGNET" := ListV([]), "TESTNET" := ListV([])]);
    if !src.DictV? then Err("AttributeError")
    else if exists k :: k in src.entries && NetworkFromName(k).None? then Err("KeyError")
    else if exists k :: k in src.entries && RestoreDeque(src.entries[k]).None? then Err("TypeError")
    else
      Ok(DequesV(map n | n in AllNetworks && NetworkName(n) in src.entries ::
        RestoreDeque(src.entries[NetworkName(n)]).value))
  }

  /** What a dump without recent lists restores to: an empty deque of length 5 per network. */
  function EmptyRestoredLists(): map<Network, Deque> {
    map n | n in AllNetworks :: Deque([], 5)
  }

  /** A dump without recent lists restores an empty deque of length 5 for every network. */
  lemma RestoreWithoutRecentLists(dct: map<string, Value>)
    requires "recently_open_wallets" !in dct
    ensures RestoreRecentLists(dct) == Ok(DequesV(EmptyRestoredLists()))
  {
    var entries := map["BITCOIN" := ListV([]), "REGTEST" := ListV([]), "SIGNET" := ListV([]), "TESTNET" := ListV([])];
    assert forall k :: k in entries ==> NetworkFromName(k).Some? && entries[k] == ListV([]);
    assert RestoreDeque(ListV([])) == Some(Deque([], 5));
    var deques := map n | n in AllNetworks && NetworkName(n) in entries :: RestoreDeque(entries[NetworkName(n)]).value;
    assert RestoreRecentLists(dct) == Ok(DequesV(deques));
    forall n | n in AllNetworks
      ensures NetworkName(n) in entries
    {
      match n
      case Bitcoin =>
      case Regtest =>
      case Signet =>
      case Testnet =>
    }
    assert deques.Keys == AllNetworks;
    assert deques == EmptyRestoredLists();
  }

  /** The dump with the two rewrites `from_dump` applies before setting the attributes. */
  function RestoredDump(dct: map<string, Value>, relToAbs: string -> string): Result<map<string, Value>> {
    match RestoreRecentLists(dct)
    case Err(e) => Err(e)
    case Ok(recent) =>
      if "data_dir" !in dct then Err("KeyError")
      else if !dct["data_dir"].StrV? then Err("TypeError")
      else Ok(dct["recently_open_wallets" := recent]["data_dir" := StrV(relToAbs(dct["data_dir"].s))])
  }

  /**
   * Restoring keeps, for every network named in the dump, the last 5 dumped paths in their
   * order, bounded by 5 from then on; networks the dump does not name get no list at all.
   */
  lemma RestoredRecentLists(dct: map<string, Value>, relToAbs: string -> string, n: Network)
    requires RestoredDump(dct, relToAbs).Ok?
    requires "recently_open_wallets" in dct && dct["recently_open_wallets"].DictV?
    ensures var restored := RestoredDump(dct, relToAbs).value;
      var dumped := dct["recently_open_wallets"].entries;
      && restored["recently_open_wallets"].DequesV?
      && (n in restored["recently_open_wallets"].deques <==> NetworkName(n) in dumped)
      && (NetworkName(n) in dumped ==>
            var d := restored["recently_open_wallets"].deques[n];
            var list := dumped[NetworkName(n)].elements;
            d.maxlen == 5 && |d.items| == (if |list| < 5 then |list| else 5)
            && d.items == list[|list| - |d.items|..])
  {
    RestoredDumpRecent(dct, relToAbs);
    RecentListOf(dct, n);
  }

  lemma RestoredDumpRecent(dct: map<string, Value>, relToAbs: string -> string)
    requires RestoredDump(dct, relToAbs).Ok?
    ensures RestoreRecentLists(dct).Ok?
    ensures "recently_open_wallets" in RestoredDump(dct, relToAbs).value
    ensures RestoredDump(dct, relToAbs).value["recently_open_wallets"] == RestoreRecentLists(dct).value
  {
  }

  /** The deque `RestoreRecentLists` gives network `n`, when the dump names it. */
  lemma RecentListOf(dct: map<string, Value>, n: Network)
    requires RestoreRecentLists(dct).Ok?
    requires "recently_open_wallets" in dct && dct["recently_open_wallets"].DictV?
    ensures var deques := RestoreRecentLists(dct).value.deques;
      var dumped := dct["recently_open_wallets"].entries;
      && (n in deques <==> NetworkName(n) in dumped)
      && (NetworkName(n) in dumped ==>
            dumped[NetworkName(n)].ListV? && deques[n] == Deque(LastN(dumped[NetworkName(n)].elements, 5), 5))
  {
    var dumped := dct["recently_open_wallets"].entries;
    if NetworkName(n) in dumped {
      assert RestoreDeque(dumped[NetworkName(n)]).Some?;
    }
  }

  /** `str(v)` of a dumped `VERSION`, for the values whose text can be a version at all. */
  function VersionText(v: Value): Option<string> {
    match v
    case StrV(s) => Some(s)
    case IntV(i) => Some(IntToString(i))
    case _ => None
  }

  /** `version.parse(str(dct["VERSION"]))`, when the key exists and the text parses. */
  function DumpVersion(dct: map<string, Value>): Option<Release> {
    if "VERSION" !in dct then None
    else match VersionText(dct["VERSION"])
      case None => None
      case Some(t) => Parse(t)
  }

  /**
   * `from_dump_migration`: brings an old dump up to date by deleting or rewriting keys
   * according to its `VERSION`, then deletes `VERSION`.
   */
  method FromDumpMigration(dct: map<string, Value>) returns (r: Result<map<string, Value>>)
    ensures "VERSION" !in dct ==> r == Err("KeyError")
    ensures "VERSION" in dct && DumpVersion(dct).None? ==> r == Err("InvalidVersion")
    ensures DumpVersion(dct).Some? ==> MigrationOf(dct, DumpVersion(dct).value, r)
  {
    if "VERSION" !in dct {
      return Err("KeyError");
    }
    var parsed := DumpVersion(dct);
    if parsed.None? {
      return Err("InvalidVersion");
    }
    r := MigrateFrom(dct, parsed.value);
  }

  /**
   * The outcome of migrating `dct` from version `v`: a dump from 0.1.0 or older without a
   * `NetworkConfig` under `network_config` fails, any other dump migrates.
   */
  predicate MigrationOf(dct: map<string, Value>, v: Release, r: Result<map<string, Value>>) {
    && (LessEq(v, [0, 1, 0]) ==>
        (r.Err? <==> "network_config" !in dct || !dct["network_config"].NetworkConfigV?))
    && (!LessEq(v, [0, 1, 0]) ==> r.Ok?)
    && (r.Ok? ==> var m := r.value;
      && (forall k :: k in ObsoleteKeys(v) ==> k !in m)
      && (LessEq(v, [0, 1, 0]) ==> "network_config" !in m && "network" in m && m["network"] == NetV(dct["network_config"].network))
      && (forall k :: k in m ==> k in dct || k == "network")
      && (forall k :: k in dct && k !in MigratedKeys(v) ==> k in m && m[k] == dct[k]))
  }

  /** The version gates of `from_dump_migration`, once `VERSION` has parsed as `v`. */
  method MigrateFrom(dct: map<string, Value>, v: Release) returns (r: Result<map<string, Value>>)
    ensures MigrationOf(dct, v, r)
  {
    var d := dct;
    if LessEq(v, [0, 1, 0]) {
      if "network_config" !in d {
        return Err("KeyError");
      }
      if !d["network_config"].NetworkConfigV? {
        return Err("AttributeError");
      }
      d := RewriteNetworkConfig(d);
      MigrationGatesNested(v);
      d := DropObsoleteKeys(d, v);
      return Ok(d);
    }
    assert MigratedKeys(v) == ObsoleteKeys(v);
    d := DropObsoleteKeys(d, v);
    r := Ok(d);
  }

  /**
   * The 0.1.0 step of `from_dump_migration`: `network_configs` gets a fresh config for
   * every network, the dumped `network_config` then replaces its own network's entry,
   * and `network_config` becomes `network` (the 0.1.2 step deletes `network_configs`
   * again).
   */
  method RewriteNetworkConfig(dct: map<string, Value>) returns (d: map<string, Value>)
    requires "network_config" in dct && dct["network_config"].NetworkConfigV?
    ensures "network_config" !in d && "network_configs" in d
    ensures "network" in d && d["network"] == NetV(dct["network_config"].network)
    ensures forall k :: k in d ==> k in dct || k == "network" || k == "network_configs"
    ensures forall k :: k in dct && k !in {"network_config", "network", "network_configs"} ==> k in d && d[k] == dct[k]
  {
    var networkConfig := dct["network_config"];
    var configs := map["BITCOIN" := NetworkConfigV(Bitcoin), "REGTEST" := NetworkConfigV(Regtest),
      "SIGNET" := NetworkConfigV(Signet), "TESTNET" := NetworkConfigV(Testnet)];
    d := dct["network_configs" := DictV(configs[NetworkName(networkConfig.network) := networkConfig])];
    d := d["network" := NetV(networkConfig.network)];
    d := d - {"network_config"};
  }

  /** The keys the version gates after 0.1.0 delete, with `VERSION` itself. */
  function ObsoleteKeys(v: Release): set<string> {
    {"VERSION"}
    + (if LessEq(v, [0, 1, 1]) then {"enable_opportunistic_merging_fee_rate"} else {})
    + (if LessEq(v, [0, 1, 2]) then {"network_configs"} else {})
    + (if LessEq(v, [0, 1, 4]) then {"recently_open_wallets"} else {})
    + (if LessEq(v, [0, 1, 6]) then {"config_dir", "config_file"} else {})
  }

  /** The deletions of `from_dump_migration` after the 0.1.0 rewrite. */
  method DropObsoleteKeys(dct: map<string, Value>, v: Release) returns (d: map<string, Value>)
    ensures forall k :: k in d <==> k in dct && k !in ObsoleteKeys(v)
    ensures forall k :: k in d ==> d[k] == dct[k]
  {
    d := dct;
    if LessEq(v, [0, 1, 1]) {
      d := d - {"enable_opportunistic_merging_fee_rate"};
    }
    if LessEq(v, [0, 1, 2]) {
      d := d - {"network_configs"};
    }
    if LessEq(v, [0, 1, 3]) {
      d := d - {"recently_open_wallets"};
      LessEqTransitive(v, [0, 1, 3], [0, 1, 4]);
    }
    if LessEq(v, [0, 1, 4]) {
      d := d - {"recently_open_wallets"};
    }
    if LessEq(v, [0, 1, 6]) {
      d := d - {"config_dir", "config_file"};
    }
    d := d - {"VERSION"};
  }

  /** The keys a migration from version `v` may delete or rewrite. */
  function MigratedKeys(v: Release): set<string> {
    ObsoleteKeys(v) + (if LessEq(v, [0, 1, 0]) then {"network_config", "network", "network_configs"} else {})
  }

  /** An older dump loses every key a newer one loses: the version gates are nested. */
  lemma MigrationGatesNested(v: Release)
    requires LessEq(v, [0, 1, 0])
    ensures LessEq(v, [0, 1, 2]) && LessEq(v, [0, 1, 4]) && LessEq(v, [0, 1, 6])
    ensures ObsoleteKeys(v) == {"VERSION", "network_configs",
      "enable_opportunistic_merging_fee_rate", "recently_open_wallets", "config_dir", "config_file"}
    ensures MigratedKeys(v) == ObsoleteKeys(v) + {"network_config", "network"}
  {
    LessEqTransitive(v, [0, 1, 0], [0, 1, 1]);
    LessEqTransitive(v, [0, 1, 0], [0, 1, 2]);
    LessEqTransitive(v, [0, 1, 0], [0, 1, 4]);
    LessEqTransitive(v, [0, 1, 0], [0, 1, 6]);
  }

  /** The read-only properties of `UserConfig`. */
  const Properties: set<string> := {"network_config", "wallet_dir"}

  /** The methods `UserConfig` defines itself (the base class's are not part of this model). */
  const Methods: set<string> := {"add_recently_open_wallet", "get", "dump", "from_dump",
    "from_dump_migration", "exists", "from_file", "save"}

  /** `os.path.join(directory, name)` for a relative `name`. */
  function PathJoin(directory: string, name: string): (r: string)
    ensures Strings.EndsWith(r, name)
    ensures |r| >= |directory| && r[..|directory|] == directory
  {
    if directory == "" then name
    else if directory[|directory| - 1] == '/' then directory + name
    else directory + "/" + name
  }

  class UserConfig {
    /** The instance attributes (`self.__dict__`). */
    var attrs: map<string, Value>
    /** `UserConfig.config_dir`, a platform directory. */
    const configDir: string
    /** `UserConfig.locales_path`, where the `.qm` translation files live. */
    const localesPath: string

    /** `UserConfig()`. */
    constructor (defaultMainnet: bool, dataDir: string, configDir: string, localesPath: string)
      ensures attrs == Defaults(defaultMainnet, dataDir)
      ensures this.configDir == configDir && this.localesPath == localesPath
    {
      attrs := Defaults(defaultMainnet, dataDir);
      this.configDir := configDir;
      this.localesPath := localesPath;
    }

    /** The class attributes `hasattr` also sees: the class constants and the methods. */
    function ClassAttributes(): (m: map<string, Value>)
      ensures "VERSION" in m && m["VERSION"] == StrV("0.1.6")
      ensures "app_name" in m && m["app_name"] == StrV("bitcoin_safe")
      ensures forall name :: name in Methods ==> name in m && m[name] == OpaqueV("method " + name)
    {
      assert "VERSION" !in Methods && "app_name" !in Methods;
      map[
        "VERSION" := StrV("0.1.6"),
        "app_name" := StrV("bitcoin_safe"),
        "config_dir" := StrV(configDir),
        "config_file" := StrV(configDir + "/bitcoin_safe.conf"),
        "locales_path" := StrV(localesPath),
        "fee_ranges" := OpaqueV("fee_ranges"),
        "known_classes" := OpaqueV("known_classes")
      ] + map name | name in Methods :: OpaqueV("method " + name)
    }

    /**
     * The value of a property, `None` when reading it raises `AttributeError` (no
     * current network, or one that is not a network). `wallet_dir` is the network's
     * folder in the config directory; `network_config` is the current network's entry
     * of `network_configs`, whose contents this model does not follow.
     */
    function Property(key: string): (r: Option<Value>)
      requires key in Properties
      reads this
      ensures r.Some? <==>
        "network" in attrs && attrs["network"].NetV? && (key == "network_config" ==> "network_configs" in attrs)
      ensures r.Some? && key == "wallet_dir" ==>
        r.value == StrV(PathJoin(configDir, NetworkName(attrs["network"].net)))
    {
      if "network" !in attrs || !attrs["network"].NetV? then None
      else if key == "wallet_dir" then Some(StrV(PathJoin(configDir, NetworkName(attrs["network"].net))))
      else if "network_configs" in attrs then Some(OpaqueV("network_config"))
      else None
    }

    /**
     * `get(key, default)`: a property wins over everything (it is a data descriptor);
     * otherwise the instance attribute, else the class attribute, else `default`. A
     * property that raises `AttributeError` makes `hasattr` false.
     */
    function Get(key: string, default: Value): (r: Value)
      reads this
      ensures key in Properties ==> r == Property(key).GetOr(default)
      ensures key !in Properties && key in attrs ==> r == attrs[key]
      ensures key !in Properties && key !in attrs && key in ClassAttributes() ==> r == ClassAttributes()[key]
      ensures key !in Properties && key !in attrs && key !in ClassAttributes() ==> r == default
    {
      if key in Properties then Property(key).GetOr(default)
      else if key in attrs then attrs[key]
      else if key in ClassAttributes() then ClassAttributes()[key]
      else default
    }

    /** The current network and its recent-wallets deque, when both exist. */
    function CurrentRecent(): Option<(Network, Deque)>
      reads this
    {
      if "network" in attrs && attrs["network"].NetV?
        && "recently_open_wallets" in attrs && attrs["recently_open_wallets"].DequesV?
        && attrs["network"].net in attrs["recently_open_wallets"].deques
      then Some((attrs["network"].net, attrs["recently_open_wallets"].deques[attrs["network"].net]))
      else None
    }

    /**
     * `add_recently_open_wallet`: moves `filePath` to the newest end of the current
     * network's list. Fails (`KeyError`) when that network has no list.
     */
    method AddRecentlyOpenWallet(filePath: string) returns (ok: bool)
      modifies this
      ensures ok == old(CurrentRecent()).Some?
      ensures !ok ==> attrs == old(attrs)
      ensures ok ==> var (net, d) := old(CurrentRecent()).value;
        attrs == old(attrs)["recently_open_wallets" :=
          DequesV(old(attrs)["recently_open_wallets"].deques[net := Touch(d, StrV(filePath))])]
    {
      var current := CurrentRecent();
      if current.None? {
        return false;
      }
      var (net, d) := current.value;
      var lists := attrs["recently_open_wallets"].deques;
      var recent := d;
      if StrV(filePath) in recent.items {
        recent := Deque(RemoveFirst(recent.items, StrV(filePath)), recent.maxlen);
      }
      recent := Append(recent, StrV(filePath));
      attrs := attrs["recently_open_wallets" := DequesV(lists[net := recent])];
      ok := true;
    }

    /** The `setattr` loop of `from_dump`: every non-`None` dumped value replaces the default. */
    method SetAttributes(dct: map<string, Value>)
      modifies this
      ensures attrs == Overlay(old(attrs), dct)
    {
      var pending := dct.Keys;
      while pending != {}
        invariant pending <= dct.Keys
        invariant forall k :: k in attrs <==> k in old(attrs) || (k in dct && k !in pending && !dct[k].NoneV?)
        invariant forall k :: k in attrs ==>
          attrs[k] == if k in dct && k !in pending && !dct[k].NoneV? then dct[k] else old(attrs)[k]
        decreases pending
      {
        var k :| k in pending;
        if !dct[k].NoneV? {
          attrs := attrs[k := dct[k]];
        }
        pending := pending - {k};
      }
      assert attrs.Keys == Overlay(old(attrs), dct).Keys;
    }
  }

  /**
   * `UserConfig.from_dump`: rewrites the recent lists and the data directory, then
   * starts from a fresh configuration and overwrites each attribute with a non-`None`
   * dumped value.
   */
  method FromDump(dct: map<string, Value>, relToAbs: string -> string, defaultMainnet: bool,
                  dataDir: string, configDir: string, localesPath: string)
    returns (r: Result<UserConfig>)
    ensures r.Err? <==> RestoredDump(dct, relToAbs).Err?
    ensures r.Ok? ==> fresh(r.value)
    ensures r.Ok? ==> r.value.attrs == Overlay(Defaults(defaultMainnet, dataDir), RestoredDump(dct, relToAbs).value)
  {
    var restored := RestoredDump(dct, relToAbs);
    if restored.Err? {
      return Err(restored.error);
    }
    var u := new UserConfig(defaultMainnet, dataDir, configDir, localesPath);
    u.SetAttributes(restored.value);
    r := Ok(u);
  }
}
