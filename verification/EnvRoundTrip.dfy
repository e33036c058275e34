/** A configuration saved to the env file and loaded again. */
module EnvRoundTrip {
  import opened Text
  import opened EnvFile
  import opened EnvConfig
  import Strconv

  // ---------------------------------------------------------------- keys

  predicate IsUpper(s: string) {
    s != "" && forall i | 0 <= i < |s| :: 'A' <= s[i] <= 'Z' || s[i] == '_'
  }

  lemma UpperIsPlain(k: string)
    requires IsUpper(k)
    ensures PlainKey(k)
  {
    assert "export "[0] == 'e' && "#"[0] == '#';
  }

  lemma RequiredAreUpper()
    ensures forall i | 0 <= i < |REQUIRED| :: IsUpper(REQUIRED[i])
  {
    assert IsUpper("ENCRYPTION_KEY") && IsUpper("LOGIN_AES_SEED") && IsUpper("DB_HOST");
    assert IsUpper("DB_NAME") && IsUpper("DB_USER");
  }

  lemma FirstOptionalAreUpper()
    ensures forall i | 0 <= i < 5 :: IsUpper(OPTIONAL[i])
  {
    assert IsUpper("BIND_ADDR") && IsUpper("PUBLIC_API_BASE_URL");
    assert IsUpper("HYSTERIA_OBFS_DISABLED_NODES");
    assert IsUpper("DB_PASSWORD") && IsUpper("DB_PORT");
  }

  lemma LastOptionalAreUpper()
    ensures forall i | 5 <= i < 10 :: IsUpper(OPTIONAL[i])
  {
    assert IsUpper("DB_CHARSET") && IsUpper("ENV") && IsUpper("LOG_LEVEL");
    assert IsUpper("SESSION_NAME") && IsUpper("STATIC_DIR");
  }

  lemma KeysArePlain(key: string)
    requires key in REQUIRED || key in OPTIONAL
    ensures PlainKey(key)
  {
    RequiredAreUpper();
    FirstOptionalAreUpper();
    LastOptionalAreUpper();
    UpperIsPlain(key);
  }

  lemma EnvMapKeys(c: Config, isRelease: string -> bool, key: string)
    requires key in EnvMap(c, isRelease)
    ensures key in REQUIRED || key in OPTIONAL
  {
    if key !in OPTIONAL {
      OtherKeysStay(RequiredMap(c), Texts(c, isRelease), |OPTIONAL|, key);
      RequiredKeys(c, key);
    }
  }

  // ---------------------------------------------------------------- counting characters

  function Count(s: string, p: char -> bool): nat {
    if s == "" then 0 else Count(s[..|s| - 1], p) + if p(s[|s| - 1]) then 1 else 0
  }

  lemma {:induction false} CountConcat(a: string, b: string, p: char -> bool)
    ensures Count(a + b, p) == Count(a, p) + Count(b, p)
  {
    if b == "" {
      assert a + b == a;
    } else {
      var front := b[..|b| - 1];
      CountConcat(a, front, p);
      assert (a + b)[..|a + b| - 1] == a + front;
    }
  }

  lemma {:induction false} CountAll(s: string, p: char -> bool)
    requires forall i | 0 <= i < |s| :: p(s[i])
    ensures Count(s, p) == |s|
  {
    if s != "" {
      CountAll(s[..|s| - 1], p);
    }
  }

  /** Trimming loses no more than what it cuts off, and just that when only counted characters go. */
  lemma CountTrimLeft(s: string, cut: char -> bool, p: char -> bool)
    ensures Count(TrimLeft(s, cut), p) <= Count(s, p)
    ensures (forall c :: cut(c) ==> p(c)) ==>
              Count(s, p) == Count(TrimLeft(s, cut), p) + |s| - |TrimLeft(s, cut)|
  {
    TrimLeftShape(s, cut);
    var t := TrimLeft(s, cut);
    var gone := s[..|s| - |t|];
    assert s == gone + t;
    CountConcat(gone, t, p);
    if forall c :: cut(c) ==> p(c) {
      CountAll(gone, p);
    }
  }

  lemma CountTrimRight(s: string, cut: char -> bool, p: char -> bool)
    ensures Count(TrimRight(s, cut), p) <= Count(s, p)
    ensures (forall c :: cut(c) ==> p(c)) ==>
              Count(s, p) == Count(TrimRight(s, cut), p) + |s| - |TrimRight(s, cut)|
  {
    TrimRightShape(s, cut);
    var t := TrimRight(s, cut);
    var gone := s[|t|..];
    assert s == t + gone;
    CountConcat(t, gone, p);
    if forall c :: cut(c) ==> p(c) {
      CountAll(gone, p);
    }
  }

  /** What loading a field may trim. */
  predicate Blank(c: char) { IsSpace(c) || c == '/' }

  lemma {:induction false} CountEscaped(v: string)
    ensures Count(EscapeBody(v), Blank) <= Count(v, Blank)
  {
    if v != "" {
      var front, c := v[..|v| - 1], v[|v| - 1];
      CountEscaped(front);
      CountConcat(EscapeBody(front), EscapeChar(c), Blank);
      CountEscapedChar(c);
    }
  }

  lemma CountOne(c: char, p: char -> bool)
    ensures Count([c], p) == if p(c) then 1 else 0
  {
    assert [c][..0] == "";
  }

  lemma CountEscapedChar(c: char)
    ensures Count(EscapeChar(c), Blank) <= if Blank(c) then 1 else 0
  {
    var e := EscapeChar(c);
    if |e| == 2 {
      assert e == [e[0]] + [e[1]] && !Blank(e[0]) && !Blank(e[1]);
      CountConcat([e[0]], [e[1]], Blank);
      CountOne(e[0], Blank);
      CountOne(e[1], Blank);
    } else {
      CountOne(c, Blank);
    }
  }

  /** Reading a trimmed value back adds no white space and no slash. */
  lemma CountReread(v: string)
    requires Trimmed(v)
    ensures Count(Reread(v), Blank) <= Count(v, Blank)
  {
    if v != "" && NeedsQuote(v) {
      RereadOfQuoted(v);
      CountEscaped(v);
      CountTrimLeft(EscapeBody(v), IsQuote, Blank);
      CountTrimRight(TrimLeft(EscapeBody(v), IsQuote), IsQuote, Blank);
    } else {
      RereadIsExact(v);
    }
  }

  // ---------------------------------------------------------------- fields that are normalised

  lemma DirSurvives(v: string)
    requires Trimmed(v) && Trim(Reread(v)) == v
    ensures Reread(v) == v
  {
    var w := Reread(v);
    CountReread(v);
    CountTrimLeft(w, IsSpace, Blank);
    CountTrimRight(TrimLeft(w, IsSpace), IsSpace, Blank);
    TrimLeftShape(w, IsSpace);
    TrimRightShape(TrimLeft(w, IsSpace), IsSpace);
  }

  /** A plain last character is written as it is. */
  lemma PlainLast(v: string, front: string, c: char)
    requires v == front + [c] && EscapeChar(c) == [c]
    ensures EscapeBody(v) == EscapeBody(front) + [c]
  {
    assert v[..|v| - 1] == front;
  }

  lemma FourParts(body: string, y: string, b1: string, b2: string, b3: string)
    requires b1 == y + ['/'] && b2 == b1 + ['a'] && b3 == b2 + ['p'] && body == b3 + ['i']
    ensures body == y + API
  {
  }

  lemma EscapeOfSuffixed(x: string)
    ensures EscapeBody(x + API) == EscapeBody(x) + API
  {
    var x1 := x + ['/'];
    var x2 := x1 + ['a'];
    var x3 := x2 + ['p'];
    var v := x3 + ['i'];
    FourParts(v, x, x1, x2, x3);
    PlainLast(x1, x, '/');
    PlainLast(x2, x1, 'a');
    PlainLast(x3, x2, 'p');
    PlainLast(v, x3, 'i');
    FourParts(EscapeBody(v), EscapeBody(x), EscapeBody(x1), EscapeBody(x2), EscapeBody(x3));
  }

  lemma {:induction false} TrimLeftStops(y: string, z: string, cut: char -> bool)
    requires z != "" && !cut(z[0])
    ensures TrimLeft(y + z, cut) == TrimLeft(y, cut) + z
  {
    if y == "" {
      assert y + z == z;
    } else if cut(y[0]) {
      assert (y + z)[1..] == y[1..] + z;
      TrimLeftStops(y[1..], z, cut);
    }
  }

  const API: string := "/api"

  lemma KeepsSuffix(x: string) returns (y: string)
    requires Trimmed(x + API)
    ensures Reread(x + API) == y + API
  {
    var v := x + API;
    if NeedsQuote(v) {
      RereadOfQuoted(v);
      EscapeOfSuffixed(x);
      TrimLeftStops(EscapeBody(x), API, IsQuote);
      y := TrimLeft(EscapeBody(x), IsQuote);
      assert (y + API)[|y + API| - 1] == 'i';
    } else {
      RereadIsExact(v);
      y := x;
    }
  }

  lemma NormalOfSuffixed(y: string)
    ensures var site := TrimSlashes(TrimLeft(y, IsSpace));
            NormalUrl(y + API) == if site == "" then "" else site + API
  {
    var base := TrimLeft(y, IsSpace) + API;
    TrimLeftStops(y, API, IsSpace);
    assert base[|base| - 1] == 'i';
    assert Trim(y + API) == base && TrimSlashes(base) == base;
    assert base[|base| - 4..] == API && base[..|base| - 4] == TrimLeft(y, IsSpace);
  }

  /** Nothing was cut off if nothing that counts was lost. */
  lemma NothingCut(y: string, x: string)
    requires TrimSlashes(TrimLeft(y, IsSpace)) == x && Count(y, Blank) <= Count(x, Blank)
    ensures y == x
  {
    var left := TrimLeft(y, IsSpace);
    var slash := (c: char) => c == '/';
    assert TrimRight(left, slash) == x;
    CountTrimLeft(y, IsSpace, Blank);
    CountTrimRight(left, slash, Blank);
    TrimLeftShape(y, IsSpace);
    TrimRightShape(left, slash);
  }

  lemma UrlSurvives(v: string)
    requires Trimmed(v) && v != "" && NormalUrl(v) == v && NormalUrl(Reread(v)) == v
    ensures Reread(v) == v
  {
    var x := v[..|v| - 4];
    assert v == x + API;
    var y := KeepsSuffix(x);
    NormalOfSuffixed(y);
    assert (TrimSlashes(TrimLeft(y, IsSpace)) + API)[..|v| - 4] == x;
    CountReread(v);
    CountConcat(x, API, Blank);
    CountConcat(y, API, Blank);
    NothingCut(y, x);
  }

  /** Words and numbers need no quotes. */
  lemma WordSurvives(v: string)
    requires forall i | 0 <= i < |v| :: 'A' <= v[i] <= 'Z' || Strconv.IsDigit(v[i])
    ensures Representable(v)
  {
  }

  // ---------------------------------------------------------------- the whole configuration

  /** What the file gives back for each key. */
  predicate RereadEnv(m: Env, e: Env) {
    m.Keys == e.Keys && forall k <- m :: e[k] == Reread(m[k])
  }

  /** A field whose text is loaded unchanged through normalisation had a representable text. */
  lemma FieldSurvives(i: nat, v: string, isRelease: string -> bool)
    requires i != 4 && i != 7 && v != "" && (i == 9 ==> v != "public")
    requires Trimmed(v) && Normal(i, v, isRelease) == v && Normal(i, Reread(v), isRelease) == v
    ensures Representable(v)
  {
    if i == 1 {
      UrlSurvives(v);
    } else if i == 9 {
      TrimClean(Reread(v));
      TrimClean(Trim(Reread(v)));
      DirSurvives(v);
    }
    RereadIsExact(v);
  }

  lemma LevelSurvives(c: Config, isRelease: string -> bool)
    ensures Representable(Texts(c, isRelease)[7])
  {
    var level := NormalLevel(c.logLevel);
    assert level == "INFO" || level == "WARN" || level == "ERROR" || level == "DEBUG";
    WordSurvives(level);
  }

  lemma PortSurvives(c: Config, isRelease: string -> bool)
    ensures Representable(Texts(c, isRelease)[4])
  {
    var port := Texts(c, isRelease)[4];
    assert port == "" || port == Strconv.Itoa(c.dbPort);
    WordSurvives(port);
  }

  lemma OptionalSurvives(c: Config, isRelease: string -> bool, e: Env, i: nat)
    requires Settled(c, isRelease) && i < |OPTIONAL| && OPTIONAL[i] in EnvMap(c, isRelease)
    requires i != 4 ==> Loaded(e, i, isRelease) == Texts(c, isRelease)[i]
    requires RereadEnv(EnvMap(c, isRelease), e)
    ensures Representable(EnvMap(c, isRelease)[OPTIONAL[i]])
  {
    EnvMapFields(c, isRelease, i);
    if i == 4 {
      PortSurvives(c, isRelease);
    } else if i == 7 {
      LevelSurvives(c, isRelease);
    } else {
      SettledField(c, isRelease, i);
      FieldSurvives(i, Texts(c, isRelease)[i], isRelease);
    }
  }

  lemma RequiredSurvive(c: Config, isRelease: string -> bool, e: Env, i: nat)
    requires RequiredIn(c, e) && i < |REQUIRED|
    requires RereadEnv(EnvMap(c, isRelease), e) && REQUIRED[i] in EnvMap(c, isRelease)
    ensures Representable(EnvMap(c, isRelease)[REQUIRED[i]])
  {
    RequiredFields(c, isRelease);
    assert Lookup(EnvMap(c, isRelease), REQUIRED[i], "") == Lookup(e, REQUIRED[i], "");
    RereadIsExact(EnvMap(c, isRelease)[REQUIRED[i]]);
  }

  lemma BlankDefaultShows(c: Config, isRelease: string -> bool, e: Env, i: nat)
    requires i < |OPTIONAL| && HasDefault(i) && RereadEnv(EnvMap(c, isRelease), e)
    requires Loaded(e, i, isRelease) == Texts(c, isRelease)[i]
    ensures Texts(c, isRelease)[i] != ""
  {
    EnvMapFields(c, isRelease, i);
    StandardTexts(i);
  }

  lemma KeySurvives(c: Config, isRelease: string -> bool, e: Env, k: string)
    requires Settled(c, isRelease) && RequiredIn(c, e)
    requires forall i | 0 <= i < |OPTIONAL| && i != 4 ::
               Loaded(e, i, isRelease) == Texts(c, isRelease)[i]
    requires RereadEnv(EnvMap(c, isRelease), e) && k in EnvMap(c, isRelease)
    ensures Representable(EnvMap(c, isRelease)[k])
  {
    EnvMapKeys(c, isRelease, k);
    if k in OPTIONAL {
      var i :| 0 <= i < |OPTIONAL| && OPTIONAL[i] == k;
      OptionalSurvives(c, isRelease, e, i);
    } else {
      var i :| 0 <= i < |REQUIRED| && REQUIRED[i] == k;
      RequiredSurvive(c, isRelease, e, i);
    }
  }

  /** If the configuration comes back, nothing written was changed by the file. */
  lemma ReloadedMeansRepresentable(c: Config, isRelease: string -> bool, e: Env)
    requires Settled(c, isRelease) && LoadConfig(e, isRelease) == c
    requires RereadEnv(EnvMap(c, isRelease), e)
    ensures NoBlankDefaults(c)
    ensures forall k <- EnvMap(c, isRelease) :: Representable(EnvMap(c, isRelease)[k])
  {
    var m := EnvMap(c, isRelease);
    LoadedByField(c, isRelease, e);
    BlankByField(c, isRelease);
    forall i | 0 <= i < |OPTIONAL| && HasDefault(i) ensures Texts(c, isRelease)[i] != "" {
      BlankDefaultShows(c, isRelease, e, i);
    }
    forall k <- m ensures Representable(m[k]) {
      KeySurvives(c, isRelease, e, k);
    }
  }

  lemma RereadIsRereadEnv(order: seq<string>, m: Env)
    requires Lists(order, m)
    ensures RereadEnv(m, RereadAll(order, m))
  {
    assert m.Keys == RereadAll(order, m).Keys;
  }

  // ---------------------------------------------------------------- what comes back is settled

  /** The environment gives back each text as it was written, or as the file reads it. */
  predicate KeptEnv(m: Env, e: Env) {
    m.Keys == e.Keys && forall k <- m :: e[k] == m[k] || e[k] == Reread(m[k])
  }

  lemma LevelIsFixed(v: string)
    ensures NormalLevel(NormalLevel(v)) == NormalLevel(v)
  {
    var level := NormalLevel(v);
    assert level == "INFO" || level == "WARN" || level == "ERROR" || level == "DEBUG";
    LowerLevels();
    TrimClean(level);
  }

  lemma LowerLevels()
    ensures Lower("INFO") == "info" && Lower("WARN") == "warn" && Lower("ERROR") == "error"
    ensures Lower("DEBUG") == "debug"
  {
  }

  lemma DirIsFixed(v: string, isRelease: string -> bool)
    ensures NormalDir(NormalDir(v, isRelease), isRelease) == NormalDir(v, isRelease)
  {
    TrimClean(v);
    TrimClean(Trim(v));
    TrimClean("public");
  }

  /** A plain field read back from its trimmed text was trimmed. */
  lemma PlainSettles(field: string)
    requires field == Trim(field) || field == Reread(Trim(field))
    ensures Trim(field) == field
  {
    var text := Trim(field);
    TrimClean(field);
    CountReread(text);
    CountTrimLeft(field, IsSpace, Blank);
    CountTrimRight(TrimLeft(field, IsSpace), IsSpace, Blank);
    TrimLeftShape(field, IsSpace);
    TrimRightShape(TrimLeft(field, IsSpace), IsSpace);
  }

  lemma StandardIsTrimmed(i: nat)
    requires i < |OPTIONAL|
    ensures Trimmed(STANDARD[i])
  {
  }

  lemma FieldSettles(c: Config, isRelease: string -> bool, e: Env, i: nat)
    requires KeptEnv(EnvMap(c, isRelease), e) && i < |OPTIONAL| && i != 4
    requires Loaded(e, i, isRelease) == Field(c, i)
    ensures TextOf(c, isRelease, i) == Field(c, i)
    ensures i == 1 ==> NormalUrl(c.publicUrl) == c.publicUrl
  {
    var x := Lookup(e, OPTIONAL[i], STANDARD[i]);
    if i == 7 {
      LevelIsFixed(x);
    } else if i == 9 {
      DirIsFixed(Trim(x), isRelease);
    } else if i == 1 {
      NormalUrlIsFixed(x);
      TrimClean(NormalUrl(x));
    } else {
      PlainFieldSettles(c, isRelease, e, i);
    }
  }

  lemma PlainFieldSettles(c: Config, isRelease: string -> bool, e: Env, i: nat)
    requires KeptEnv(EnvMap(c, isRelease), e) && i < |OPTIONAL| && i != 1 && i != 4 && i != 7 && i != 9
    requires Lookup(e, OPTIONAL[i], STANDARD[i]) == Field(c, i)
    ensures Trim(Field(c, i)) == Field(c, i)
  {
    EnvMapFields(c, isRelease, i);
    StandardIsTrimmed(i);
    TrimClean(STANDARD[i]);
    assert Texts(c, isRelease)[i] == Trim(Field(c, i));
    PlainSettles(Field(c, i));
  }

  lemma PortSettles(c: Config, isRelease: string -> bool, e: Env)
    requires KeptEnv(EnvMap(c, isRelease), e) && LookupInt(e, OPTIONAL[4], 3306) == c.dbPort
    ensures 0 < c.dbPort <= Strconv.MAX_INT
  {
    EnvMapFields(c, isRelease, 4);
    PortSurvives(c, isRelease);
    var port := Texts(c, isRelease)[4];
    RereadIsExact(port);
  }

  /** Whatever comes back unchanged, from the file or without it, is settled. */
  lemma ReloadedIsSettled(c: Config, isRelease: string -> bool, e: Env)
    requires KeptEnv(EnvMap(c, isRelease), e) && LoadConfig(e, isRelease) == c
    ensures Settled(c, isRelease)
  {
    FieldsOfLoaded(c, isRelease, e);
    PortSettles(c, isRelease, e);
    forall i: nat | i < |OPTIONAL| && i != 4 ensures TextOf(c, isRelease, i) == Field(c, i) {
      FieldSettles(c, isRelease, e, i);
    }
    FieldSettles(c, isRelease, e, 1);
  }

  /** Loading what was written gives a configuration back exactly when it is settled and none of the
      fields with a default is blank. */
  lemma ReloadIsExact(c: Config, isRelease: string -> bool)
    ensures LoadConfig(EnvMap(c, isRelease), isRelease) == c
       <==> Settled(c, isRelease) && NoBlankDefaults(c)
  {
    if LoadConfig(EnvMap(c, isRelease), isRelease) == c {
      ReloadedIsSettled(c, isRelease, EnvMap(c, isRelease));
    }
    if Settled(c, isRelease) {
      SettledReloads(c, isRelease);
    }
  }

  /** Loading a saved file always succeeds, and gives the configuration back exactly when it is
      settled, no field with a default is blank and the file can hold every value written, whatever
      the order of the lines. Normalising a field never repairs what the file has changed. */
  lemma SavedConfigReloads(c: Config, isRelease: string -> bool, order: seq<string>)
    requires Lists(order, EnvMap(c, isRelease))
    ensures var m := EnvMap(c, isRelease);
            var loaded := LoadLines(Lines(FileText(order, m)));
            && loaded.Ok?
            && (LoadConfig(loaded.value, isRelease) == c
                <==> && Settled(c, isRelease) && NoBlankDefaults(c)
                     && forall k <- m :: Representable(m[k]))
  {
    var m := EnvMap(c, isRelease);
    forall k <- m ensures PlainKey(k) {
      EnvMapKeys(c, isRelease, k);
      KeysArePlain(k);
    }
    LoadOfSaved(order, m);
    ReloadIsExact(c, isRelease);
    var e := RereadAll(order, m);
    RereadIsRereadEnv(order, m);
    if LoadConfig(e, isRelease) == c {
      ReloadedIsSettled(c, isRelease, e);
      ReloadedMeansRepresentable(c, isRelease, e);
    }
  }
}
