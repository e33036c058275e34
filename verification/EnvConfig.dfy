/** The panel's env-backed configuration: what is written to the env file, with defaults left out,
    and what loading makes of it when the process environment sets none of the keys. Lower-casing
    is modelled for ASCII. */
module EnvConfig {
  import opened Text
  import opened EnvFile
  import Strconv

  datatype Config = Config(
    encryptionKey: string, loginSeed: string, dbHost: string, dbName: string, dbUser: string,
    bindAddr: string, publicUrl: string, obfsDisabled: string, dbPassword: string, dbPort: int,
    dbCharset: string, env: string, logLevel: string, sessionName: string, staticDir: string)

  type Env = map<string, string>

  function Lookup(values: Env, key: string, standard: string): string {
    if key in values then values[key] else standard
  }

  function LookupInt(values: Env, key: string, standard: int): int {
    var value := Lookup(values, key, "");
    if value == "" then standard
    else
      var (n, ok) := Strconv.Atoi(value);
      if ok then n else standard
  }

  // ---------------------------------------------------------------- normal forms

  function Lower(s: string): string {
    seq(|s|, i requires 0 <= i < |s| => if 'A' <= s[i] <= 'Z' then s[i] - 'A' + 'a' else s[i])
  }

  function NormalLevel(value: string): string {
    var v := Lower(Trim(value));
    if v in {"info", "false", "0", "no", "off"} then "INFO"
    else if v in {"warn", "warning"} then "WARN"
    else if v == "error" then "ERROR"
    else "DEBUG"
  }

  function DropSuffix(s: string, suffix: string): string {
    if |suffix| <= |s| && s[|s| - |suffix|..] == suffix then s[..|s| - |suffix|] else s
  }

  function TrimSlashes(s: string): string { TrimRight(s, c => c == '/') }

  function NormalUrl(raw: string): string {
    var base := Trim(raw);
    var site := if base == "" then "" else TrimSlashes(DropSuffix(TrimSlashes(base), "/api"));
    if site == "" then "" else site + "/api"
  }

  /** isRelease stands for the test on cleaned absolute paths inside a release directory. */
  function NormalDir(value: string, isRelease: string -> bool): string {
    var v := Trim(value);
    if v == "" || isRelease(v) then "public" else v
  }

  // ---------------------------------------------------------------- writing and loading

  const REQUIRED := ["ENCRYPTION_KEY", "LOGIN_AES_SEED", "DB_HOST", "DB_NAME", "DB_USER"]
  const OPTIONAL := ["BIND_ADDR", "PUBLIC_API_BASE_URL", "HYSTERIA_OBFS_DISABLED_NODES",
                     "DB_PASSWORD", "DB_PORT", "DB_CHARSET", "ENV", "LOG_LEVEL", "SESSION_NAME",
                     "STATIC_DIR"]
  const STANDARD := ["127.0.0.1:18080", "", "", "", "", "utf8mb4", "production", "DEBUG",
                     "hy2_panel_session", "public"]

  /** The optional text fields by the place of their keys, with nothing for the port. */
  function Field(c: Config, i: nat): string {
    if i == 0 then c.bindAddr
    else if i == 1 then c.publicUrl
    else if i == 2 then c.obfsDisabled
    else if i == 3 then c.dbPassword
    else if i == 5 then c.dbCharset
    else if i == 6 then c.env
    else if i == 7 then c.logLevel
    else if i == 8 then c.sessionName
    else if i == 9 then c.staticDir
    else ""
  }

  /** The text written for an optional field; "" is never written, and the default port, which is
      compared as a number, counts as blank. */
  function TextOf(c: Config, isRelease: string -> bool, i: nat): string {
    if i == 4 then if c.dbPort > 0 && c.dbPort != 3306 then Strconv.Itoa(c.dbPort) else ""
    else if i == 7 then NormalLevel(c.logLevel)
    else if i == 9 then NormalDir(c.staticDir, isRelease)
    else Trim(Field(c, i))
  }

  function Texts(c: Config, isRelease: string -> bool): (ts: seq<string>)
    ensures |ts| == |OPTIONAL|
  {
    seq(|OPTIONAL|, (i: nat) => TextOf(c, isRelease, i))
  }

  /** A field is left out when it is blank or the default. */
  function Put(values: Env, key: string, text: string, standard: string): Env {
    if text == "" || text == standard then values else values[key := text]
  }

  function PutAll(values: Env, texts: seq<string>, n: nat): Env
    requires n <= |texts| == |OPTIONAL|
  {
    if n == 0 then values
    else Put(PutAll(values, texts, n - 1), OPTIONAL[n - 1], texts[n - 1], STANDARD[n - 1])
  }

  function RequiredMap(c: Config): Env {
    map[REQUIRED[0] := c.encryptionKey, REQUIRED[1] := c.loginSeed, REQUIRED[2] := c.dbHost,
        REQUIRED[3] := c.dbName, REQUIRED[4] := c.dbUser]
  }

  function EnvMap(c: Config, isRelease: string -> bool): Env {
    PutAll(RequiredMap(c), Texts(c, isRelease), |OPTIONAL|)
  }

  /** What loading makes of the text of an optional field. */
  function Normal(i: nat, text: string, isRelease: string -> bool): string {
    if i == 1 then NormalUrl(text)
    else if i == 7 then NormalLevel(text)
    else if i == 9 then NormalDir(Trim(text), isRelease)
    else text
  }

  function Loaded(values: Env, i: nat, isRelease: string -> bool): string
    requires i < |OPTIONAL|
  {
    Normal(i, Lookup(values, OPTIONAL[i], STANDARD[i]), isRelease)
  }

  function LoadConfig(values: Env, isRelease: string -> bool): Config {
    Config(
      Lookup(values, REQUIRED[0], ""), Lookup(values, REQUIRED[1], ""),
      Lookup(values, REQUIRED[2], ""), Lookup(values, REQUIRED[3], ""),
      Lookup(values, REQUIRED[4], ""),
      Loaded(values, 0, isRelease), Loaded(values, 1, isRelease), Loaded(values, 2, isRelease),
      Loaded(values, 3, isRelease), LookupInt(values, OPTIONAL[4], 3306),
      Loaded(values, 5, isRelease), Loaded(values, 6, isRelease), Loaded(values, 7, isRelease),
      Loaded(values, 8, isRelease), Loaded(values, 9, isRelease))
  }

  /** Each field, its key and its default. */
  lemma FieldsByKey(e: Env, isRelease: string -> bool)
    ensures var c := LoadConfig(e, isRelease);
            && c.encryptionKey == Lookup(e, "ENCRYPTION_KEY", "")
            && c.loginSeed == Lookup(e, "LOGIN_AES_SEED", "")
            && c.dbHost == Lookup(e, "DB_HOST", "") && c.dbName == Lookup(e, "DB_NAME", "")
            && c.dbUser == Lookup(e, "DB_USER", "") && c.dbPassword == Lookup(e, "DB_PASSWORD", "")
            && c.bindAddr == Lookup(e, "BIND_ADDR", "127.0.0.1:18080")
            && c.publicUrl == NormalUrl(Lookup(e, "PUBLIC_API_BASE_URL", ""))
            && c.obfsDisabled == Lookup(e, "HYSTERIA_OBFS_DISABLED_NODES", "")
            && c.dbPort == LookupInt(e, "DB_PORT", 3306)
            && c.dbCharset == Lookup(e, "DB_CHARSET", "utf8mb4")
            && c.env == Lookup(e, "ENV", "production")
            && c.logLevel == NormalLevel(Lookup(e, "LOG_LEVEL", "DEBUG"))
            && c.sessionName == Lookup(e, "SESSION_NAME", "hy2_panel_session")
            && c.staticDir == NormalDir(Trim(Lookup(e, "STATIC_DIR", "public")), isRelease)
  {
  }

  /** Which spellings mean which log level, whatever their case and the white space around them. */
  lemma LevelsByWord(value: string)
    ensures var word, level := Lower(Trim(value)), NormalLevel(value);
            && (level == "INFO" <==> word in {"info", "false", "0", "no", "off"})
            && (level == "WARN" <==> word in {"warn", "warning"})
            && (level == "ERROR" <==> word == "error")
            && (level == "DEBUG" <==> level != "INFO" && level != "WARN" && level != "ERROR")
    ensures |Lower(value)| == |value|
    ensures forall i | 0 <= i < |value| ::
              Lower(value)[i] as int
              == value[i] as int + if 65 <= value[i] as int <= 90 then 32 else 0
  {
    assert "INFO"[0] == 'I' && "WARN"[0] == 'W' && "ERROR"[0] == 'E' && "DEBUG"[0] == 'D';
  }

  // ---------------------------------------------------------------- the round trip

  /** Keys of equal length differ in their fourth character. */
  predicate Differ(s: string, t: string) { |s| != |t| || (|s| > 3 && s[3] != t[3]) }

  lemma KeysAreDistinct()
    ensures forall i, j | 0 <= i < j < |OPTIONAL| :: OPTIONAL[i] != OPTIONAL[j]
    ensures forall i, j | 0 <= i < |REQUIRED| && 0 <= j < |OPTIONAL| :: REQUIRED[i] != OPTIONAL[j]
    ensures forall i, j | 0 <= i < j < |REQUIRED| :: REQUIRED[i] != REQUIRED[j]
  {
    assert forall i, j | 0 <= i < j < |OPTIONAL| :: Differ(OPTIONAL[i], OPTIONAL[j]);
    assert forall i, j | 0 <= i < |REQUIRED| && 0 <= j < |OPTIONAL| ::
        Differ(REQUIRED[i], OPTIONAL[j]);
    assert forall i, j | 0 <= i < j < |REQUIRED| :: Differ(REQUIRED[i], REQUIRED[j]);
  }

  lemma {:induction false} OtherKeysStay(values: Env, texts: seq<string>, n: nat, key: string)
    requires n <= |texts| == |OPTIONAL|
    requires forall i | 0 <= i < n :: OPTIONAL[i] != key
    ensures key in PutAll(values, texts, n) <==> key in values
    ensures key in values ==> PutAll(values, texts, n)[key] == values[key]
  {
    if n > 0 {
      OtherKeysStay(values, texts, n - 1, key);
    }
  }

  lemma {:induction false} FieldIsFound(values: Env, texts: seq<string>, n: nat, i: nat)
    requires i < n <= |texts| == |OPTIONAL|
    requires forall j | 0 <= j < |OPTIONAL| :: OPTIONAL[j] !in values
    ensures var m := PutAll(values, texts, n);
            && (OPTIONAL[i] in m <==> texts[i] != "" && texts[i] != STANDARD[i])
            && Lookup(m, OPTIONAL[i], STANDARD[i]) == if texts[i] == "" then STANDARD[i] else texts[i]
  {
    KeysAreDistinct();
    if i == n - 1 {
      OtherKeysStay(values, texts, n - 1, OPTIONAL[i]);
    } else {
      FieldIsFound(values, texts, n - 1, i);
    }
  }

  /** A configuration as loading leaves it: every text field is trimmed and in the normal form in which
      it is written, the base address is in its normal form too, and the port is a real one. */
  predicate Settled(c: Config, isRelease: string -> bool) {
    && (forall i: nat | i < |OPTIONAL| && i != 4 :: TextOf(c, isRelease, i) == Field(c, i))
    && NormalUrl(c.publicUrl) == c.publicUrl
    && 0 < c.dbPort <= Strconv.MAX_INT
  }

  /** None of the fields that have a default is blank. */
  predicate NoBlankDefaults(c: Config) {
    c.bindAddr != "" && c.dbCharset != "" && c.env != "" && c.sessionName != ""
  }

  lemma EnvMapFields(c: Config, isRelease: string -> bool, i: nat)
    requires i < |OPTIONAL|
    ensures var m, texts := EnvMap(c, isRelease), Texts(c, isRelease);
            && (OPTIONAL[i] in m <==> texts[i] != "" && texts[i] != STANDARD[i])
            && Lookup(m, OPTIONAL[i], STANDARD[i]) == if texts[i] == "" then STANDARD[i] else texts[i]
  {
    KeysAreDistinct();
    forall j | 0 <= j < |OPTIONAL| ensures OPTIONAL[j] !in RequiredMap(c) {
      if OPTIONAL[j] in RequiredMap(c) {
        RequiredKeys(c, OPTIONAL[j]);
      }
    }
    FieldIsFound(RequiredMap(c), Texts(c, isRelease), |OPTIONAL|, i);
  }

  lemma RequiredKeys(c: Config, key: string)
    requires key in RequiredMap(c)
    ensures exists k | 0 <= k < |REQUIRED| :: key == REQUIRED[k]
  {
    assert key == REQUIRED[0] || key == REQUIRED[1] || key == REQUIRED[2] || key == REQUIRED[3]
        || key == REQUIRED[4];
  }

  lemma RequiredFields(c: Config, isRelease: string -> bool)
    ensures RequiredIn(c, EnvMap(c, isRelease))
  {
    KeysAreDistinct();
    var r := RequiredMap(c);
    assert r[REQUIRED[0]] == c.encryptionKey && r[REQUIRED[1]] == c.loginSeed;
    assert r[REQUIRED[2]] == c.dbHost && r[REQUIRED[3]] == c.dbName && r[REQUIRED[4]] == c.dbUser;
    forall k | 0 <= k < |REQUIRED|
      ensures REQUIRED[k] in r ==> REQUIRED[k] in EnvMap(c, isRelease)
                                   && EnvMap(c, isRelease)[REQUIRED[k]] == r[REQUIRED[k]]
    {
      OtherKeysStay(r, Texts(c, isRelease), |OPTIONAL|, REQUIRED[k]);
    }
  }

  lemma PortComesBack(c: Config, isRelease: string -> bool)
    requires 0 < c.dbPort <= Strconv.MAX_INT
    ensures LookupInt(EnvMap(c, isRelease), OPTIONAL[4], 3306) == c.dbPort
  {
    EnvMapFields(c, isRelease, 4);
    Strconv.AtoiOfItoa(c.dbPort);
  }

  /** The required fields are in the environment as they are. */
  predicate RequiredIn(c: Config, e: Env) {
    && Lookup(e, REQUIRED[0], "") == c.encryptionKey && Lookup(e, REQUIRED[1], "") == c.loginSeed
    && Lookup(e, REQUIRED[2], "") == c.dbHost && Lookup(e, REQUIRED[3], "") == c.dbName
    && Lookup(e, REQUIRED[4], "") == c.dbUser
  }

  lemma FieldsDetermine(c: Config, d: Config)
    requires c.encryptionKey == d.encryptionKey && c.loginSeed == d.loginSeed
    requires c.dbHost == d.dbHost && c.dbName == d.dbName && c.dbUser == d.dbUser
    requires c.dbPort == d.dbPort
    requires forall i: nat | i < |OPTIONAL| && i != 4 :: Field(c, i) == Field(d, i)
    ensures c == d
  {
    assert Field(c, 0) == Field(d, 0) && Field(c, 1) == Field(d, 1) && Field(c, 2) == Field(d, 2);
    assert Field(c, 3) == Field(d, 3) && Field(c, 5) == Field(d, 5) && Field(c, 6) == Field(d, 6);
    assert Field(c, 7) == Field(d, 7) && Field(c, 8) == Field(d, 8) && Field(c, 9) == Field(d, 9);
  }

  lemma FieldOfLoaded(e: Env, i: nat, isRelease: string -> bool)
    requires i < |OPTIONAL| && i != 4
    ensures Field(LoadConfig(e, isRelease), i) == Loaded(e, i, isRelease)
  {
  }

  lemma FieldsOfLoaded(c: Config, isRelease: string -> bool, e: Env)
    requires LoadConfig(e, isRelease) == c
    ensures LookupInt(e, OPTIONAL[4], 3306) == c.dbPort
    ensures forall i: nat | i < |OPTIONAL| && i != 4 :: Loaded(e, i, isRelease) == Field(c, i)
  {
    forall i: nat | i < |OPTIONAL| && i != 4 ensures Loaded(e, i, isRelease) == Field(c, i) {
      FieldOfLoaded(e, i, isRelease);
    }
  }

  /** A configuration was loaded from the environment exactly when each field was. */
  lemma LoadedByField(c: Config, isRelease: string -> bool, e: Env)
    requires Settled(c, isRelease)
    ensures LoadConfig(e, isRelease) == c
       <==> && RequiredIn(c, e) && LookupInt(e, OPTIONAL[4], 3306) == c.dbPort
            && forall i | 0 <= i < |OPTIONAL| && i != 4 ::
                 Loaded(e, i, isRelease) == Texts(c, isRelease)[i]
  {
    var loaded := LoadConfig(e, isRelease);
    forall i | 0 <= i < |OPTIONAL| && i != 4
      ensures Field(loaded, i) == Loaded(e, i, isRelease) && Texts(c, isRelease)[i] == Field(c, i)
    {
      FieldOfLoaded(e, i, isRelease);
    }
    if RequiredIn(c, e) && LookupInt(e, OPTIONAL[4], 3306) == c.dbPort
       && (forall i | 0 <= i < |OPTIONAL| && i != 4 :: Field(loaded, i) == Field(c, i)) {
      FieldsDetermine(loaded, c);
    }
  }

  /** The optional fields that must not be blank. */
  predicate HasDefault(i: nat) { i == 0 || i == 5 || i == 6 || i == 8 }

  lemma StandardTexts(i: nat)
    requires i < |OPTIONAL|
    ensures STANDARD[i] != "" <==> HasDefault(i) || i == 7 || i == 9
  {
  }

  /** Settled fields are in normal form; the level and the directory are never blank. */
  lemma SettledField(c: Config, isRelease: string -> bool, i: nat)
    requires Settled(c, isRelease) && i < |OPTIONAL| && i != 4
    ensures Normal(i, Field(c, i), isRelease) == Field(c, i)
    ensures Trimmed(Field(c, i)) || i == 7
    ensures i == 7 || i == 9 ==> Field(c, i) != ""
  {
    TrimClean(Field(c, i));
    if i == 7 {
      LevelNotBlank(c.logLevel);
    }
  }

  lemma LevelNotBlank(value: string)
    ensures NormalLevel(value) != ""
  {
  }

  lemma BlankByField(c: Config, isRelease: string -> bool)
    requires Settled(c, isRelease)
    ensures NoBlankDefaults(c)
       <==> forall i | 0 <= i < |OPTIONAL| && HasDefault(i) :: Texts(c, isRelease)[i] != ""
  {
    forall i: nat | i < |OPTIONAL| && i != 4 ensures Texts(c, isRelease)[i] == Field(c, i) {
    }
    assert HasDefault(0) && HasDefault(5) && HasDefault(6) && HasDefault(8);
  }

  /** A field comes back exactly when it is not a blank one with a default. */
  lemma FieldReloads(c: Config, isRelease: string -> bool, i: nat)
    requires Settled(c, isRelease) && i < |OPTIONAL| && i != 4
    ensures Loaded(EnvMap(c, isRelease), i, isRelease) == Texts(c, isRelease)[i]
       <==> !(HasDefault(i) && Texts(c, isRelease)[i] == "")
  {
    EnvMapFields(c, isRelease, i);
    SettledField(c, isRelease, i);
    StandardTexts(i);
  }

  /** A settled configuration comes back exactly when none of the fields with a default is blank: a
      blank one is left out of the file and comes back as the default. */
  lemma SettledReloads(c: Config, isRelease: string -> bool)
    requires Settled(c, isRelease)
    ensures LoadConfig(EnvMap(c, isRelease), isRelease) == c <==> NoBlankDefaults(c)
  {
    RequiredFields(c, isRelease);
    PortComesBack(c, isRelease);
    LoadedByField(c, isRelease, EnvMap(c, isRelease));
    BlankByField(c, isRelease);
    forall i | 0 <= i < |OPTIONAL| && i != 4
      ensures Loaded(EnvMap(c, isRelease), i, isRelease) == Texts(c, isRelease)[i]
         <==> !(HasDefault(i) && Texts(c, isRelease)[i] == "")
    {
      FieldReloads(c, isRelease, i);
    }
  }

  /** The base address in normal form is a fixed point, so a loaded configuration has it. */
  lemma NormalUrlIsFixed(raw: string)
    ensures NormalUrl(NormalUrl(raw)) == NormalUrl(raw) && Trimmed(NormalUrl(raw))
  {
    var base := Trim(raw);
    var slash := (c: char) => c == '/';
    var bare := TrimSlashes(base);
    var cut := DropSuffix(bare, "/api");
    var site := TrimSlashes(cut);
    TrimClean(raw);
    TrimRightShape(base, slash);
    TrimRightShape(cut, slash);
    if base != "" && site != "" {
      assert site[0] == cut[0] == bare[0] == base[0];
      var url := site + "/api";
      assert url[|url| - 1] == 'i';
      TrimClean(url);
      assert TrimSlashes(url) == url && url[|url| - 4..] == "/api" && url[..|url| - 4] == site;
      assert TrimSlashes(site) == site;
    }
  }
}
