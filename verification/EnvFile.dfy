/** The panel's env file: how values are written, how the file is read back, and what survives. */
module EnvFile {
  import opened Basics
  import opened Text

  predicate IsQuote(c: char) { c == '"' || c == '\'' }

  /** The characters that make SaveConfigFile quote a value. */
  predicate Special(c: char) {
    c == ' ' || c == '#' || c == '\t' || c == '\n' || c == '\r' || IsQuote(c)
  }

  predicate NeedsQuote(v: string) { exists i | 0 <= i < |v| :: Special(v[i]) }

  function EscapeChar(c: char): string {
    if c == '\\' then "\\\\"
    else if c == '"' then "\\\""
    else if c == '\n' then "\\n"
    else if c == '\r' then "\\r"
    else [c]
  }

  function EscapeBody(v: string): string {
    if v == "" then "" else EscapeBody(v[..|v| - 1]) + EscapeChar(v[|v| - 1])
  }

  function Escape(v: string): string {
    if v == "" then "\"\""
    else if !NeedsQuote(v) then v
    else "\"" + EscapeBody(v) + "\""
  }

  const QUOTED_FOR := {' ', '\t', '\n', '\r', '#', '"', '\''}

  /** A value is written as it is unless it is empty or has a space, tab, line break, number sign or
      quote in it; those are put in double quotes. */
  lemma WrittenForm(v: string)
    ensures if v == "" || exists i | 0 <= i < |v| :: v[i] in QUOTED_FOR
            then |Escape(v)| >= 2 && Escape(v)[0] == '"' && Escape(v)[|Escape(v)| - 1] == '"'
            else Escape(v) == v
  {
    if exists i | 0 <= i < |v| :: v[i] in QUOTED_FOR {
      var i :| 0 <= i < |v| && v[i] in QUOTED_FOR;
      assert Special(v[i]) && NeedsQuote(v);
    }
  }

  // ---------------------------------------------------------------- writing and reading

  function Line(key: string, value: string): string { key + "=" + Escape(value) }

  function FileText(order: seq<string>, values: map<string, string>): string
    requires forall k <- order :: k in values
  {
    if order == [] then ""
    else
      var k := order[|order| - 1];
      FileText(order[..|order| - 1], values) + Line(k, values[k]) + "\n"
  }

  /** order lists the keys; the source sorts them. */
  method SaveConfigFile(order: seq<string>, values: map<string, string>) returns (text: string)
    requires forall k <- order :: k in values
    ensures text == FileText(order, values)
  {
    text := "";
    for i := 0 to |order|
      invariant text == FileText(order[..i], values)
    {
      assert order[..i + 1][..i] == order[..i];
      text := text + Line(order[i], values[order[i]]) + "\n";
    }
    assert order[..|order|] == order;
  }

  datatype Parsed = Skip | Bad | Entry(key: string, value: string)

  predicate HasPrefix(s: string, prefix: string) { |prefix| <= |s| && s[..|prefix|] == prefix }

  function DropPrefix(s: string, prefix: string): string {
    if HasPrefix(s, prefix) then s[|prefix|..] else s
  }

  function FirstEquals(s: string): (i: nat)
    ensures i <= |s| && (i < |s| ==> s[i] == '=') && forall j | 0 <= j < i :: s[j] != '='
  {
    if s == "" || s[0] == '=' then 0 else 1 + FirstEquals(s[1..])
  }

  function ParseLine(raw: string): Parsed {
    var line := Trim(raw);
    if line == "" || line[0] == '#' then Skip
    else
      var body := DropPrefix(line, "export ");
      var i := FirstEquals(body);
      if i == |body| then Bad
      else Entry(Trim(body[..i]), TrimBy(Trim(body[i + 1..]), IsQuote))
  }

  /** The file cut at its line breaks. */
  function Lines(text: string): (lines: seq<string>)
    ensures lines != []
  {
    Split(text, '\n')
  }

  function LoadLines(lines: seq<string>): Result<map<string, string>, nat> {
    if lines == [] then Ok(map[])
    else
      match LoadLines(lines[..|lines| - 1])
      case Err(n) => Err(n)
      case Ok(values) =>
        match ParseLine(lines[|lines| - 1])
        case Skip => Ok(values)
        case Bad => Err(|lines|)
        case Entry(key, value) => Ok(values[key := value])
  }

  /** What a line without the export word is: blank or a comment, or one without an equals sign;
      anything else is an entry, split at the first one. */
  lemma LineKinds(raw: string)
    requires !HasPrefix(Trim(raw), "export ")
    ensures var line := Trim(raw);
            && (ParseLine(raw) == Skip <==> line == "" || line[0] == '#')
            && (ParseLine(raw) == Bad
                <==> line != "" && line[0] != '#' && forall i | 0 <= i < |line| :: line[i] != '=')
  {
    var line := Trim(raw);
    var i := FirstEquals(line);
    if i < |line| {
      assert line[i] == '=';
    }
  }

  lemma EntryAtFirstEquals(raw: string, i: nat)
    requires i < |Trim(raw)| && Trim(raw)[i] == '=' && forall j | 0 <= j < i :: Trim(raw)[j] != '='
    requires Trim(raw)[0] != '#' && !HasPrefix(Trim(raw), "export ")
    ensures var line := Trim(raw);
            ParseLine(raw) == Entry(Trim(line[..i]), TrimBy(Trim(line[i + 1..]), IsQuote))
  {
    assert FirstEquals(Trim(raw)) == i;
  }

  /** The export word in front of an entry makes no difference. */
  lemma ExportIsDropped(entry: string)
    requires Trimmed(entry) && entry != "" && entry[0] != '#' && !HasPrefix(entry, "export ")
    ensures ParseLine("export " + entry) == ParseLine(entry)
  {
    var word := "export ";
    var line := word + entry;
    assert word[0] == 'e' && line[0] == 'e' && line[|line| - 1] == entry[|entry| - 1];
    TrimClean(line);
    TrimClean(entry);
    assert line[..|word|] == word && line[|word|..] == entry;
  }

  /** Reads the file line by line; a line without an equals sign stops it with its number. */
  method LoadEnvFile(text: string) returns (r: Result<map<string, string>, nat>)
    ensures r == LoadLines(Lines(text))
  {
    var lines := Lines(text);
    var values: map<string, string> := map[];
    for i := 0 to |lines|
      invariant LoadLines(lines[..i]) == Ok(values)
    {
      assert lines[..i + 1][..i] == lines[..i];
      match ParseLine(lines[i]) {
        case Skip =>
        case Bad =>
          ErrorStays(lines, i + 1);
          return Err(i + 1);
        case Entry(key, value) =>
          values := values[key := value];
      }
    }
    assert lines[..|lines|] == lines;
    r := Ok(values);
  }

  lemma {:induction false} ErrorStays(lines: seq<string>, n: nat)
    requires n <= |lines| && LoadLines(lines[..n]).Err?
    ensures LoadLines(lines) == LoadLines(lines[..n])
  {
    if n == |lines| {
      assert lines[..n] == lines;
    } else {
      assert lines[..|lines| - 1][..n] == lines[..n];
      ErrorStays(lines[..|lines| - 1], n);
    }
  }

  // ---------------------------------------------------------------- one value

  /** What reading makes of a written value. */
  function Reread(v: string): string { TrimBy(Trim(Escape(v)), IsQuote) }

  predicate EscapeFree(v: string) {
    forall i | 0 <= i < |v| :: v[i] != '\\' && v[i] != '"' && v[i] != '\n' && v[i] != '\r'
  }

  /** The values the file can hold: a quoted one has nothing to escape and no apostrophe at an edge,
      an unquoted one has no white space at an edge. */
  predicate Representable(v: string) {
    if NeedsQuote(v) then EscapeFree(v) && Clean(v, IsQuote) else Trimmed(v)
  }

  lemma {:induction false} EscapeBodyGrows(v: string)
    ensures |EscapeBody(v)| >= |v|
    ensures |EscapeBody(v)| == |v| ==> EscapeFree(v)
  {
    if v != "" {
      EscapeBodyGrows(v[..|v| - 1]);
    }
  }

  lemma {:induction false} NothingToEscape(v: string)
    requires EscapeFree(v)
    ensures EscapeBody(v) == v
  {
    if v != "" {
      NothingToEscape(v[..|v| - 1]);
      assert v == v[..|v| - 1] + [v[|v| - 1]];
    }
  }

  /** Escaping keeps an edge that is not a quote from being one. */
  lemma {:induction false} EscapeBodyEdges(v: string)
    requires v != ""
    ensures EscapeBody(v) != ""
    ensures !IsQuote(v[0]) ==> !IsQuote(EscapeBody(v)[0])
    ensures !IsQuote(v[|v| - 1]) ==> !IsQuote(EscapeBody(v)[|EscapeBody(v)| - 1])
  {
    if |v| > 1 {
      EscapeBodyEdges(v[..|v| - 1]);
    } else {
      assert v[..0] == "";
    }
  }

  lemma {:induction false} TrimLeftOfAppended(s: string, c: char, cut: char -> bool)
    requires cut(c)
    ensures TrimLeft(s + [c], cut) == if TrimLeft(s, cut) == "" then "" else TrimLeft(s, cut) + [c]
  {
    if s == "" {
      assert s + [c] == [c] && [c][1..] == "";
    } else if cut(s[0]) {
      assert (s + [c])[1..] == s[1..] + [c];
      TrimLeftOfAppended(s[1..], c, cut);
    }
  }

  /** A trailing character of the cut set makes no difference. */
  lemma TrimOfAppended(s: string, c: char, cut: char -> bool)
    requires cut(c)
    ensures TrimBy(s + [c], cut) == TrimBy(s, cut)
  {
    TrimLeftOfAppended(s, c, cut);
    var t := TrimLeft(s, cut);
    assert (t + [c])[..|t + [c]| - 1] == t;
  }

  lemma TrimOfQuoted(body: string)
    ensures TrimBy("\"" + body + "\"", IsQuote) == TrimBy(body, IsQuote)
  {
    assert "\"" + body + "\"" == "\"" + body + ['"'];
    TrimOfAppended("\"" + body, '"', IsQuote);
    assert ("\"" + body)[1..] == body;
  }

  lemma EmptyReread()
    ensures Reread("") == ""
  {
    var e := "\"\"";
    TrimClean(e);
    assert e == "\"" + "" + "\"";
    TrimOfQuoted("");
  }

  lemma RereadOfQuoted(v: string)
    requires v != "" && NeedsQuote(v)
    ensures Reread(v) == TrimBy(EscapeBody(v), IsQuote)
  {
    var body := EscapeBody(v);
    var e := "\"" + body + "\"";
    assert Escape(v) == e && Trimmed(e);
    TrimClean(e);
    TrimOfQuoted(body);
  }

  lemma QuotedReread(v: string)
    requires v != "" && NeedsQuote(v)
    ensures Reread(v) == v <==> EscapeFree(v) && Clean(v, IsQuote)
  {
    RereadOfQuoted(v);
    QuotedBodyReread(v);
  }

  lemma QuotedBodyReread(v: string)
    requires v != ""
    ensures TrimBy(EscapeBody(v), IsQuote) == v <==> EscapeFree(v) && Clean(v, IsQuote)
  {
    TrimByClean(EscapeBody(v), IsQuote);
    EscapeBodyGrows(v);
    if EscapeFree(v) {
      NothingToEscape(v);
    }
    if Clean(v, IsQuote) {
      EscapeBodyEdges(v);
    }
  }

  lemma BareReread(v: string)
    requires !NeedsQuote(v) && v != ""
    ensures Reread(v) == v <==> Trimmed(v)
  {
    var t := TrimLeft(v, IsSpace);
    TrimClean(v);
    TrimLeftShape(v, IsSpace);
    TrimRightShape(t, IsSpace);
    forall i | 0 <= i < |Trim(v)| ensures !IsQuote(Trim(v)[i]) {
      assert Trim(v)[i] == t[i] == v[|v| - |t| + i];
      assert !Special(v[|v| - |t| + i]);
    }
    TrimByClean(Trim(v), IsQuote);
  }

  /** A value comes back from the file exactly when it is representable. */
  lemma RereadIsExact(v: string)
    ensures Reread(v) == v <==> Representable(v)
  {
    if v == "" {
      EmptyReread();
    } else if NeedsQuote(v) {
      QuotedReread(v);
    } else {
      BareReread(v);
    }
  }

  // ---------------------------------------------------------------- the whole file

  /** The keys a line can carry. */
  predicate PlainKey(k: string) {
    && Trimmed(k) && !HasPrefix(k, "#") && !HasPrefix(k, "export ")
    && forall i | 0 <= i < |k| :: k[i] != '=' && k[i] != '\n'
  }

  lemma {:induction false} FirstEqualsAfterKey(k: string, rest: string)
    requires forall i | 0 <= i < |k| :: k[i] != '='
    ensures FirstEquals(k + "=" + rest) == |k|
  {
    if k != "" {
      assert (k + "=" + rest)[1..] == k[1..] + "=" + rest;
      FirstEqualsAfterKey(k[1..], rest);
    }
  }

  /** Trimming in two steps. */
  lemma {:induction false} TrimOfTrimRight(s: string)
    ensures Trim(TrimRight(s, IsSpace)) == Trim(s)
  {
    if s != "" && IsSpace(s[|s| - 1]) {
      var front := s[..|s| - 1];
      TrimOfTrimRight(front);
      assert s == front + [s[|s| - 1]];
      TrimOfAppended(front, s[|s| - 1], IsSpace);
    }
  }

  lemma {:induction false} TrimRightOfConcat(s: string, t: string)
    requires s != "" && !IsSpace(s[|s| - 1])
    ensures TrimRight(s + t, IsSpace) == s + TrimRight(t, IsSpace)
  {
    if t == "" {
      assert s + t == s;
    } else if IsSpace(t[|t| - 1]) {
      assert (s + t)[..|s + t| - 1] == s + t[..|t| - 1];
      TrimRightOfConcat(s, t[..|t| - 1]);
    } else {
      assert (s + t)[|s + t| - 1] == t[|t| - 1];
    }
  }

  lemma LineIsRead(k: string, v: string)
    requires PlainKey(k)
    ensures ParseLine(Line(k, v)) == Entry(k, Reread(v))
  {
    var raw, head, e := Line(k, v), k + "=", Escape(v);
    assert raw == head + e && TrimLeft(raw, IsSpace) == raw;
    TrimRightOfConcat(head, e);
    var tail := TrimRight(e, IsSpace);
    var line := Trim(raw);
    assert line == k + "=" + tail && line[|k|] == '=';
    assert !HasPrefix(line, "export ") by {
      if |k| >= |"export "| {
        assert line[..|"export "|] == k[..|"export "|];
      } else {
        assert forall i | 0 <= i < |"export "| :: "export "[i] != '=';
      }
    }
    assert line[0] != '#' by {
      if k != "" {
        assert line[0] == k[0] && k[..1] == [k[0]];
      }
    }
    FirstEqualsAfterKey(k, tail);
    assert line[..|k|] == k && line[|k| + 1..] == tail;
    TrimClean(k);
    TrimOfTrimRight(e);
  }

  lemma {:induction false} EscapeHasNoBreaks(v: string)
    ensures forall i | 0 <= i < |EscapeBody(v)| :: EscapeBody(v)[i] != '\n'
  {
    if v != "" {
      EscapeHasNoBreaks(v[..|v| - 1]);
    }
  }

  lemma LineHasNoBreaks(k: string, v: string)
    requires PlainKey(k)
    ensures forall i | 0 <= i < |Line(k, v)| :: Line(k, v)[i] != '\n'
  {
    EscapeHasNoBreaks(v);
  }

  /** The file's lines are the written lines and an empty one. */
  function Written(order: seq<string>, values: map<string, string>): seq<string>
    requires forall k <- order :: k in values
  {
    seq(|order|, i requires 0 <= i < |order| => Line(order[i], values[order[i]]))
  }

  lemma OneMoreLine(text: string, lines: seq<string>, line: string)
    requires Lines(text) == lines + [""]
    requires forall i | 0 <= i < |line| :: line[i] != '\n'
    ensures Lines(text + line + "\n") == lines + [line] + [""]
  {
    SplitOfMore(text, '\n', line);
    SplitOneMore(text + line, '\n', '\n');
    var ls := lines + [""];
    assert ls[..|ls| - 1] == lines && "" + line == line;
    assert text + line + ['\n'] == text + line + "\n";
  }

  lemma WrittenGrows(order: seq<string>, values: map<string, string>)
    requires order != [] && forall k <- order :: k in values
    ensures var front, k := order[..|order| - 1], order[|order| - 1];
            Written(order, values) == Written(front, values) + [Line(k, values[k])]
  {
    var front, k := order[..|order| - 1], order[|order| - 1];
    var lines, longer := Written(front, values), Written(order, values);
    forall i | 0 <= i < |front| ensures longer[i] == lines[i] {
      assert order[i] == front[i];
    }
    assert longer == lines + [longer[|front|]];
  }

  lemma {:induction false} LinesOfFile(order: seq<string>, values: map<string, string>)
    requires forall k <- order :: k in values && PlainKey(k)
    ensures Lines(FileText(order, values)) == Written(order, values) + [""]
  {
    if order != [] {
      var front, k := order[..|order| - 1], order[|order| - 1];
      var line := Line(k, values[k]);
      LinesOfFile(front, values);
      LineHasNoBreaks(k, values[k]);
      OneMoreLine(FileText(front, values), Written(front, values), line);
      WrittenGrows(order, values);
    }
  }

  lemma OneMoreEntry(lines: seq<string>, line: string, m: map<string, string>, k: string, v: string)
    requires LoadLines(lines) == Ok(m) && ParseLine(line) == Entry(k, v)
    ensures LoadLines(lines + [line]) == Ok(m[k := v])
  {
    assert (lines + [line])[..|lines|] == lines;
  }

  function RereadAll(order: seq<string>, values: map<string, string>): map<string, string>
    requires forall k <- order :: k in values
  {
    map k | k in order :: Reread(values[k])
  }

  lemma RereadGrows(order: seq<string>, values: map<string, string>)
    requires order != [] && forall k <- order :: k in values
    ensures var front, k := order[..|order| - 1], order[|order| - 1];
            RereadAll(order, values) == RereadAll(front, values)[k := Reread(values[k])]
  {
    assert order == order[..|order| - 1] + [order[|order| - 1]];
  }

  lemma {:induction false} WrittenLinesLoad(order: seq<string>, values: map<string, string>)
    requires forall k <- order :: k in values && PlainKey(k)
    requires forall i, j | 0 <= i < j < |order| :: order[i] != order[j]
    ensures LoadLines(Written(order, values)) == Ok(RereadAll(order, values))
  {
    if order == [] {
      assert RereadAll(order, values) == map[];
    } else {
      var front, k := order[..|order| - 1], order[|order| - 1];
      WrittenLinesLoad(front, values);
      LineIsRead(k, values[k]);
      var r := Reread(values[k]);
      OneMoreEntry(Written(front, values), Line(k, values[k]), RereadAll(front, values), k, r);
      WrittenGrows(order, values);
      RereadGrows(order, values);
    }
  }

  predicate Lists(order: seq<string>, values: map<string, string>) {
    && (forall k <- order :: k in values) && (forall k <- values :: k in order)
    && (forall i, j | 0 <= i < j < |order| :: order[i] != order[j])
  }

  /** Loading a saved file never fails and gives each key its reread value, whatever the values
      contain; so it returns the same map exactly when every value is representable. */
  lemma LoadOfSaved(order: seq<string>, values: map<string, string>)
    requires Lists(order, values) && forall k <- values :: PlainKey(k)
    ensures LoadLines(Lines(FileText(order, values))) == Ok(RereadAll(order, values))
    ensures LoadLines(Lines(FileText(order, values))) == Ok(values)
       <==> forall k <- values :: Representable(values[k])
  {
    LinesOfFile(order, values);
    WrittenLinesLoad(order, values);
    BlankLineIsSkipped(Written(order, values));
    SameMapWhenRepresentable(order, values);
  }

  lemma BlankLineIsSkipped(lines: seq<string>)
    ensures LoadLines(lines + [""]) == LoadLines(lines)
  {
    assert (lines + [""])[..|lines|] == lines;
    assert Trim("") == "";
  }

  lemma SameMapWhenRepresentable(order: seq<string>, values: map<string, string>)
    requires Lists(order, values)
    ensures RereadAll(order, values) == values <==> forall k <- values :: Representable(values[k])
  {
    var reread := RereadAll(order, values);
    assert reread.Keys == values.Keys;
    forall k <- values ensures reread[k] == values[k] <==> Representable(values[k]) {
      RereadIsExact(values[k]);
    }
    SameMap(reread, values);
  }

  lemma SameMap(m: map<string, string>, values: map<string, string>)
    requires m.Keys == values.Keys
    ensures m == values <==> forall k <- values :: m[k] == values[k]
  {
  }
}
