/**
  The connection registry behind the database class: one shared table of
  default settings, named custom configurations and open connections (static
  state in the original), and per-instance data (the current connection name
  and the accumulated error text). Opening a connection is an answer the
  driver gives; what the model computes is the configuration used, the DSN
  and who is asked for what.
 */
module Databases {
  import opened PhpStrings
  import opened Php
  import opened Connections

  // ---------------------------------------------------------------- settings

  /** The settings every connection starts from. */
  const DefaultConfig: seq<Entry> := [
    Entry(StrKey("type"), Str("mysql")),
    Entry(StrKey("host"), Str("localhost")),
    Entry(StrKey("user"), Str("")),
    Entry(StrKey("password"), Str("")),
    Entry(StrKey("dbname"), Str("")),
    Entry(StrKey("port"), Int(3306)),
    Entry(StrKey("charset"), Str("utf8mb4")),
    Entry(StrKey("errmode"), Str("exception")),
    Entry(StrKey("fetch_mode"), Str("obj")),
    Entry(StrKey("emulate_prepares"), Bool(false))
  ]

  /** The settings a configuration must have for a connection to be tried. */
  const RequiredKeys: seq<string> := ["type", "host", "user", "password"]

  const IncompleteConfig := "Incomplete Database Configuration."
  const NoConnection := "Database connection not established."

  /** `$config[$name]` inside string interpolation: a missing key reads as null. */
  function Setting(config: seq<Entry>, name: string): (v: Value)
    ensures HasKey(config, StrKey(name)) ==> Some(v) == Get(config, StrKey(name))
    ensures !HasKey(config, StrKey(name)) ==> v == Null
  {
    match Get(config, StrKey(name))
    case Some(x) => x
    case None => Null
  }

  /** setConfig on the settings: a known name takes the new value, an unknown
      name changes nothing. */
  function WithConfig(config: seq<Entry>, name: string, value: Value): (r: seq<Entry>)
    ensures HasKey(config, StringKey(name)) ==> Get(r, StringKey(name)) == Some(value)
    ensures forall k :: k != StringKey(name) ==> Get(r, k) == Get(config, k)
    ensures !HasKey(config, StringKey(name)) ==> r == config
    ensures |r| == |config| && forall k :: HasKey(r, k) <==> HasKey(config, k)
  {
    if HasKey(config, StringKey(name)) then
      PutKeys(config, StringKey(name), value);
      Put(config, StringKey(name), value)
    else config
  }

  /** validateConfig: `isset` of type, host, user and password. */
  function ValidateConfig(config: seq<Entry>): (ok: bool)
    ensures ok <==> IsSet(config, StrKey("type")) && IsSet(config, StrKey("host"))
                    && IsSet(config, StrKey("user")) && IsSet(config, StrKey("password"))
  {
    assert RequiredKeys[0] == "type" && RequiredKeys[1] == "host";
    assert RequiredKeys[2] == "user" && RequiredKeys[3] == "password";
    forall i :: 0 <= i < |RequiredKeys| ==> IsSet(config, StrKey(RequiredKeys[i]))
  }

  /** createConfig: array_merge of the settings with a custom configuration. */
  function CreateConfig(config: seq<Entry>, custom: seq<Entry>): (r: seq<Entry>)
    ensures |config| <= |r| <= |config| + |custom|
  {
    Merge(config, custom)
  }

  /** The configuration connect() uses: a truthy name picks that custom
      configuration (none stored counts as an empty one), otherwise the
      settings are merged with themselves. */
  function ConnectConfig(config: seq<Entry>, customs: map<Key, seq<Entry>>, name: string): seq<Entry>
  {
    if StrTruthy(name) then
      CreateConfig(config, if StringKey(name) in customs then customs[StringKey(name)] else [])
    else CreateConfig(config, config)
  }

  /** Whether the DSN names a database: dbname is not empty and is not "*". */
  predicate NamesDatabase(config: seq<Entry>)
  {
    Truthy(Setting(config, "dbname")) && Setting(config, "dbname") != Str("*")
  }

  /** The DSN without the optional database name. */
  function DsnBase(config: seq<Entry>): string
  {
    Text(Setting(config, "type")) + ":host=" + Text(Setting(config, "host"))
    + ";port=" + Text(Setting(config, "port")) + ";charset=" + Text(Setting(config, "charset"))
  }

  /** The DSN connect() hands to PDO. */
  function Dsn(config: seq<Entry>): (dsn: string)
    ensures |dsn| >= |DsnBase(config)| && dsn[..|DsnBase(config)|] == DsnBase(config)
    ensures NamesDatabase(config) ==> dsn == DsnBase(config) + ";dbname=" + Text(Setting(config, "dbname"))
    ensures !NamesDatabase(config) ==> dsn == DsnBase(config)
  {
    var base := DsnBase(config);
    if NamesDatabase(config) then base + ";dbname=" + Text(Setting(config, "dbname")) else base
  }

  // ---------------------------------------------------------------- properties

  /** The built-in settings name each setting once. */
  lemma DefaultKeysDistinct()
    ensures DistinctKeys(DefaultConfig)
  {
  }

  /** Each built-in setting is found under its own name. */
  lemma DefaultSettingAt(i: nat)
    requires i < |DefaultConfig|
    ensures Get(DefaultConfig, DefaultConfig[i].key) == Some(DefaultConfig[i].val)
  {
    DefaultKeysDistinct();
    GetAt(DefaultConfig, i);
  }

  /** The built-in settings are complete. */
  lemma DefaultConfigValid()
    ensures ValidateConfig(DefaultConfig) && StringKeyed(DefaultConfig)
  {
    DefaultSettingAt(0);
    DefaultSettingAt(1);
    DefaultSettingAt(2);
    DefaultSettingAt(3);
    assert IsSet(DefaultConfig, StrKey("type")) && IsSet(DefaultConfig, StrKey("host"));
    assert IsSet(DefaultConfig, StrKey("user")) && IsSet(DefaultConfig, StrKey("password"));
    DefaultStringKeyed();
  }

  lemma DefaultStringKeyed()
    ensures StringKeyed(DefaultConfig)
  {
  }

  /** The built-in settings the DSN reads. */
  lemma DefaultSettings()
    ensures Setting(DefaultConfig, "type") == Str("mysql")
    ensures Setting(DefaultConfig, "host") == Str("localhost")
    ensures Setting(DefaultConfig, "dbname") == Str("")
    ensures Setting(DefaultConfig, "port") == Int(3306)
    ensures Setting(DefaultConfig, "charset") == Str("utf8mb4")
  {
    DefaultSettingAt(0);
    DefaultSettingAt(1);
    DefaultSettingAt(4);
    DefaultSettingAt(5);
    DefaultSettingAt(6);
  }

  /** With the built-in settings the DSN is the local MySQL server on port 3306
      and names no database. */
  lemma DefaultDsn()
    ensures Dsn(DefaultConfig) == "mysql" + ":host=" + "localhost" + ";port=" + "3306" + ";charset=" + "utf8mb4"
  {
    DefaultSettings();
    PortText();
  }

  // Helper: the decimal text of the default port.
  lemma PortText()
    ensures IntToDecimal(3306) == "3306"
  {
    assert NatToDecimal(3) == "3";
    assert NatToDecimal(33) == "33";
    assert NatToDecimal(330) == "330";
  }

  /** setConfig keeps the settings a string-keyed array with each key once,
      the shape connect() relies on. */
  lemma WithConfigKeepsShape(config: seq<Entry>, name: string, value: Value)
    requires StringKeyed(config) && DistinctKeys(config)
    ensures StringKeyed(WithConfig(config, name, value)) && DistinctKeys(WithConfig(config, name, value))
  {
    var k := StringKey(name);
    match Find(config, k)
    case Some(i) => PutReplaces(config, k, value, i);
    case None =>
  }

  /** Without a custom name the settings are used as they are. */
  lemma DefaultConnectConfig(config: seq<Entry>, customs: map<Key, seq<Entry>>, name: string)
    requires StringKeyed(config) && DistinctKeys(config) && !StrTruthy(name)
    ensures ConnectConfig(config, customs, name) == config
  {
    MergeSelf(config);
  }

  /** A custom name that was never added falls back to the settings alone. */
  lemma MissingCustomConfig(config: seq<Entry>, customs: map<Key, seq<Entry>>, name: string)
    requires StringKeyed(config) && StrTruthy(name) && StringKey(name) !in customs
    ensures ConnectConfig(config, customs, name) == config
  {
    RenumberStringKeyed(config, 0);
  }

  /** In the merged configuration a custom value wins for every key it sets;
      every other key keeps the default. */
  lemma CustomValuesWin(config: seq<Entry>, custom: seq<Entry>, name: string)
    requires DistinctKeys(custom)
    ensures Setting(CreateConfig(config, custom), name) ==
      if HasKey(custom, StrKey(name)) then Setting(custom, name) else Setting(config, name)
  {
    MergeStringKey(config, custom, name);
  }

  /** A merged configuration is complete exactly when each required key is
      either set to a non-null value by the custom configuration or, left
      alone by it, set in the defaults. */
  lemma MergedConfigValid(config: seq<Entry>, custom: seq<Entry>)
    requires DistinctKeys(custom)
    ensures ValidateConfig(CreateConfig(config, custom)) <==>
      forall i :: 0 <= i < |RequiredKeys| ==>
        if HasKey(custom, StrKey(RequiredKeys[i])) then Get(custom, StrKey(RequiredKeys[i])).value != Null
        else IsSet(config, StrKey(RequiredKeys[i]))
  {
    forall i | 0 <= i < |RequiredKeys| {
      MergeStringKey(config, custom, RequiredKeys[i]);
    }
  }

  /** The slot a connection name refers to: a truthy name is its own key, any
      other name means the current connection. */
  function SlotKey(name: string, current: Key): (k: Key)
    ensures StrTruthy(name) ==> k == StringKey(name)
    ensures !StrTruthy(name) ==> k == current
  {
    if StrTruthy(name) then StringKey(name) else current
  }

  /** The key of the current connection: the configuration name, or 0 when
      it is empty or "0". */
  function CurrentKey(name: string): (k: Key)
    ensures StrTruthy(name) ==> k == StringKey(name)
    ensures !StrTruthy(name) ==> k == IntKey(0)
  {
    if StrTruthy(name) then StringKey(name) else IntKey(0)
  }

  // ---------------------------------------------------------------- queries

  /** What the driver does when the connection is opened. */
  datatype PdoAnswer = Opens(pdo: Pdo) | Refuses(message: string)

  /** The arguments new PDO() is called with. */
  datatype Attempt = Attempt(dsn: string, user: Value, password: Value)

  /** The calls executeQuery makes: none without a connection, otherwise a
      prepare and, unless that fails, an execute with the parameters. */
  function QueryCalls(conn: Option<Pdo>, sql: string, params: seq<Entry>, answer: DriverAnswer): (calls: seq<DriverCall>)
    ensures conn.None? ==> calls == []
    ensures conn.Some? ==> calls != [] && calls[0] == Prepare(sql)
    ensures Execute(params) in calls <==> conn.Some? && !answer.PrepareFails?
    ensures |calls| <= 2
  {
    if conn.None? then []
    else if answer.PrepareFails? then [Prepare(sql)]
    else [Prepare(sql), Execute(params)]
  }

  /** The message executeQuery adds to the error text, if the query fails. */
  function QueryError(conn: Option<Pdo>, answer: DriverAnswer): (m: Option<string>)
    ensures m.None? <==> conn.Some? && answer.Executes?
    ensures conn.None? ==> m == Some(NoConnection)
    ensures conn.Some? && !answer.Executes? ==> m == Some(answer.message)
  {
    if conn.None? then Some(NoConnection)
    else match answer
      case Executes(_, _) => None
      case PrepareFails(msg) => Some(msg)
      case ExecuteFails(msg) => Some(msg)
  }

  /** How executeQuery ends. Its declared return type `?PDOStatement` is read
      inside namespace Core, where no `use` imports it, so it names
      Core\PDOStatement: returning null satisfies the declared return type, returning the
      driver's \PDOStatement raises a TypeError that the catch of
      PDOException does not handle. */
  function QueryOutcome(conn: Option<Pdo>, answer: DriverAnswer): (r: Result<Option<Statement>>)
    ensures r.Err? <==> conn.Some? && answer.Executes?
    ensures r.Err? ==> r.failure == ReturnTypeError("executeQuery")
    ensures r.Ok? ==> r.value == None
  {
    if conn.Some? && answer.Executes? then Err(ReturnTypeError("executeQuery")) else Ok(None)
  }

  /** executeQuery never hands a statement back: it either answers null with
      a message added to the error text, or raises with the error text kept. */
  lemma QueryNeverReturnsStatement(conn: Option<Pdo>, answer: DriverAnswer)
    ensures QueryOutcome(conn, answer).Ok? <==> QueryError(conn, answer).Some?
    ensures QueryOutcome(conn, answer).Ok? ==> QueryOutcome(conn, answer).value.None?
  {
  }

  // ---------------------------------------------------------------- state

  /** The tables every database object shares. */
  class Registry {
    var config: seq<Entry>
    var customConfigs: map<Key, seq<Entry>>
    var pdo: map<Key, Option<Pdo>>

    /** The settings are string-keyed with each key once. */
    predicate Valid()
      reads this
    {
      StringKeyed(config) && DistinctKeys(config)
    }

    constructor()
      ensures config == DefaultConfig && customConfigs == map[] && pdo == map[]
      ensures Valid()
    {
      DefaultKeysDistinct();
      DefaultStringKeyed();
      config := DefaultConfig;
      customConfigs := map[];
      pdo := map[];
    }

    /** setConfig($name, $value). */
    method SetConfig(name: string, value: Value)
      modifies this`config
      ensures config == WithConfig(old(config), name, value)
      ensures old(Valid()) ==> Valid()
    {
      if Valid() {
        WithConfigKeepsShape(config, name, value);
      }
      if HasKey(config, StringKey(name)) {
        config := Put(config, StringKey(name), value);
      }
    }

    /** addCustomConfig($name, $config). */
    method AddCustomConfig(name: string, custom: seq<Entry>)
      modifies this`customConfigs
      ensures customConfigs == old(customConfigs)[StringKey(name) := custom]
    {
      customConfigs := customConfigs[StringKey(name) := custom];
    }

    /** getConfig($name): the stored setting, or false when it is missing or null. */
    function GetConfig(name: string): (v: Value)
      reads this
      ensures IsSet(config, StringKey(name)) ==> Some(v) == Get(config, StringKey(name))
      ensures !IsSet(config, StringKey(name)) ==> v == Bool(false)
    {
      match Get(config, StringKey(name))
      case Some(x) => if x == Null then Bool(false) else x
      case None => Bool(false)
    }
  }

  class Database {
    const registry: Registry
    var currentConnection: Key
    var errorInfo: string

    /** __construct($name) up to its call of connect(). */
    constructor(registry: Registry, name: string)
      ensures this.registry == registry
      ensures currentConnection == CurrentKey(name) && errorInfo == ""
    {
      this.registry := registry;
      currentConnection := CurrentKey(name);
      errorInfo := "";
    }

    /** connect($name): an incomplete configuration raises before PDO is
        asked; otherwise PDO is asked to open the DSN, and the connection it
        opens goes into the current slot. */
    method Connect(name: string, answer: PdoAnswer) returns (r: Outcome, attempt: Option<Attempt>)
      requires currentConnection == CurrentKey(name)
      modifies registry`pdo
      ensures var cfg := ConnectConfig(registry.config, registry.customConfigs, name);
        (!ValidateConfig(cfg) ==> r == Fail(PdoException(IncompleteConfig)) && attempt == None
                                  && registry.pdo == old(registry.pdo)) &&
        (ValidateConfig(cfg) ==> attempt == Some(Attempt(Dsn(cfg), Setting(cfg, "user"), Setting(cfg, "password")))) &&
        (ValidateConfig(cfg) && answer.Opens? ==> r == Pass && registry.pdo == old(registry.pdo)[currentConnection := Some(answer.pdo)]) &&
        (ValidateConfig(cfg) && answer.Refuses? ==> r == Fail(PdoException(answer.message)) && registry.pdo == old(registry.pdo))
    {
      var cfg := ConnectConfig(registry.config, registry.customConfigs, name);
      if !ValidateConfig(cfg) {
        return Fail(PdoException(IncompleteConfig)), None;
      }
      attempt := Some(Attempt(Dsn(cfg), Setting(cfg, "user"), Setting(cfg, "password")));
      match answer {
        case Opens(p) =>
          registry.pdo := registry.pdo[currentConnection := Some(p)];
          r := Pass;
        case Refuses(msg) =>
          r := Fail(PdoException(msg));
      }
    }

    /** getConnection($name): the connection in the slot, null for an empty
        or closed slot. */
    function GetConnection(name: string): (c: Option<Pdo>)
      reads this, registry
      ensures var k := SlotKey(name, currentConnection);
        c.Some? <==> k in registry.pdo && registry.pdo[k].Some?
      ensures c.Some? ==> registry.pdo[SlotKey(name, currentConnection)] == c
    {
      var k := SlotKey(name, currentConnection);
      if k in registry.pdo then registry.pdo[k] else None
    }

    /** getErrorInfo(): the accumulated error text. */
    function GetErrorInfo(): string
      reads this
    {
      errorInfo
    }

    /** closeConnection($name): the slot is set to null, the others stay. */
    method CloseConnection(name: string)
      modifies registry`pdo
      ensures registry.pdo == old(registry.pdo)[SlotKey(name, currentConnection) := None]
      ensures GetConnection(name) == None
    {
      registry.pdo := registry.pdo[SlotKey(name, currentConnection) := None];
    }

    /** executeQuery($sql, $params) on the current connection: null with the
        failure's message appended to the error text, or, once the statement
        has run, the TypeError of the return-type check. */
    method ExecuteQuery(sql: string, params: seq<Entry>, answer: DriverAnswer)
      returns (r: Result<Option<Statement>>, calls: seq<DriverCall>)
      modifies this`errorInfo
      ensures var conn := GetConnection("");
        calls == QueryCalls(conn, sql, params, answer) &&
        r == QueryOutcome(conn, answer) &&
        errorInfo == old(errorInfo) + (match QueryError(conn, answer) case Some(m) => m case None => "")
    {
      var conn := GetConnection("");
      if conn.None? {
        errorInfo := errorInfo + NoConnection;
        return Ok(None), [];
      }
      match answer {
        case PrepareFails(msg) =>
          errorInfo := errorInfo + msg;
          return Ok(None), [Prepare(sql)];
        case ExecuteFails(msg) =>
          errorInfo := errorInfo + msg;
          return Ok(None), [Prepare(sql), Execute(params)];
        case Executes(_, _) =>
          return Err(ReturnTypeError("executeQuery")), [Prepare(sql), Execute(params)];
      }
    }
  }
}
