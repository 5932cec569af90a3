/**
 * The configuration store of `src/config/config.js`: a two-level keyed store
 * (section, then key) filled from defaults, the environment and the command
 * line, with its value parser, the missing-value report of
 * `validateRequired`, and the three serialisers, which share one filter and
 * one quoting rule.
 */
module Config {
  import opened Strings
  import opened Json
  import opened Paths
  import opened Reconcile

  /** A configuration path `[section, key]`. */
  datatype Path = Path(section: string, key: string)

  type Section = map<string, Value>
  type Sections = map<string, Section>

  /** One row of `ENV_MAPPING`: an environment key and the path it sets. */
  datatype Entry = Entry(envKey: string, path: Path)

  /** `REQUIRED_CONFIG`, in table order. */
  const Required: seq<Path> := [
    Path("sonarr", "url"), Path("sonarr", "apiKey"), Path("sonarr", "rootFolder"),
    Path("radarr", "url"), Path("radarr", "apiKey"), Path("radarr", "rootFolder")]

  /** `ENV_MAPPING`, in its insertion order (the order `Object.entries` lists it). */
  const EnvMapping: seq<Entry> := [
    Entry("ENABLE_LOGGING", Path("logging", "enabled")),
    Entry("SONARR_URL", Path("sonarr", "url")),
    Entry("SONARR_API_KEY", Path("sonarr", "apiKey")),
    Entry("SONARR_QUALITY_PROFILE_ID", Path("sonarr", "qualityProfileId")),
    Entry("SONARR_ROOT_FOLDER", Path("sonarr", "rootFolder")),
    Entry("RADARR_URL", Path("radarr", "url")),
    Entry("RADARR_API_KEY", Path("radarr", "apiKey")),
    Entry("RADARR_QUALITY_PROFILE_ID", Path("radarr", "qualityProfileId")),
    Entry("RADARR_ROOT_FOLDER", Path("radarr", "rootFolder")),
    Entry("RADARR_FORCE_SEARCH_ON_EXISTING", Path("radarr", "forceSearchOnExisting"))]

  /** `DEFAULT_CONFIG`, for the user's home directory `home`. */
  function Defaults(home: string): (d: Sections)
    ensures d.Keys == {"logging", "sonarr", "radarr"}
    ensures At(d, Path("sonarr", "qualityProfileId")) == Num(3) && At(d, Path("radarr", "qualityProfileId")) == Num(3)
    ensures At(d, Path("radarr", "forceSearchOnExisting")) == Bool(true) && At(d, Path("logging", "enabled")) == Bool(true)
    ensures At(d, Path("sonarr", "url")) == Str("http://localhost:8989") && At(d, Path("radarr", "url")) == Str("http://localhost:7878")
    ensures At(d, Path("sonarr", "apiKey")) == Str("") && At(d, Path("sonarr", "rootFolder")) == Str("")
    ensures At(d, Path("radarr", "apiKey")) == Str("") && At(d, Path("radarr", "rootFolder")) == Str("")
    ensures forall i :: 0 <= i < |Required| ==> Required[i].section in d
    ensures SectionsExist(d, EnvMapping)
  {
    var d := map["logging" := map["enabled" := Bool(true),
                         "logPath" := Str(Normalize(Join(Join(home, ".gptdarr"), "log.txt")))],
        "sonarr" := map["url" := Str("http://localhost:8989"),
                        "apiKey" := Str(""),
                        "qualityProfileId" := Num(3),
                        "rootFolder" := Str("")],
        "radarr" := map["url" := Str("http://localhost:7878"),
                        "apiKey" := Str(""),
                        "qualityProfileId" := Num(3),
                        "rootFolder" := Str(""),
                        "forceSearchOnExisting" := Bool(true)]];
    TableSections(d);
    d
  }

  /** `get(path)` on a two-level path whose section exists. */
  function At(cfg: Sections, p: Path): (v: Value)
    requires p.section in cfg
    ensures p.key !in cfg[p.section] ==> v == Undefined
  {
    Field(cfg[p.section], p.key)
  }

  /** The store after `set(path, value)`. */
  function Put(cfg: Sections, p: Path, v: Value): (r: Sections)
    requires p.section in cfg
    ensures r.Keys == cfg.Keys
    ensures At(r, p) == v
    ensures forall q: Path :: q.section in cfg && q != p ==> At(r, q) == At(cfg, q)
  {
    cfg[p.section := cfg[p.section][p.key := v]]
  }

  /** `parseValue(value)`: booleans, then numbers (`!isNaN`), and otherwise the string itself. */
  function ParseValue(s: string): (v: Value)
    ensures v == Bool(true) <==> s == "true"
    ensures v == Bool(false) <==> s == "false"
    ensures v.Bool? || v.Num? || v == Str(s)
  {
    if s == "true" then Bool(true)
    else if s == "false" then Bool(false)
    else
      var t := Trim(s);
      if t == "" then Num(0)
      else if IsDecimal(t) then Num(ParseDecimal(t))
      else if |t| > 1 && t[0] == '+' && AllDigits(t[1..]) then Num(DigitsValue(t[1..]))
      else Str(s)
  }

  /** A string without leading or trailing white space is its own trim. */
  lemma TrimUnchanged(s: string)
    requires s == [] || (!IsSpace(s[0]) && !IsSpace(s[|s| - 1]))
    ensures Trim(s) == s
  {
  }

  /** A decimal integer string reads as its number. */
  lemma ParseValueOfDecimal(s: string)
    requires IsDecimal(s)
    ensures ParseValue(s) == Num(ParseDecimal(s))
  {
    assert s[0] == '-' || IsDigit(s[0]);
    if s[0] == '-' {
      assert IsDigit(s[1..][|s| - 2]);
    } else {
      assert IsDigit(s[|s| - 1]);
    }
    assert s != "true" && s != "false";
    TrimUnchanged(s);
  }

  /** Booleans and integers read back as themselves from their text. */
  lemma ParseValueOfDisplay(v: Value)
    requires v.Bool? || v.Num?
    ensures ParseValue(Display(v)) == v
  {
    if v.Num? {
      IntToStringRoundTrip(v.n);
      ParseValueOfDecimal(IntToString(v.n));
    }
  }

  /**
   * An ASCII character that no string JavaScript's `Number` accepts can hold: not a digit, a sign,
   * white space, a decimal point, an exponent mark, a radix prefix letter (`x`, `o`, `b`), a hex
   * digit letter or a letter of `Infinity`. `:` and `/` (URLs, paths) and most letters qualify.
   */
  predicate NonNumeric(c: char) {
    c < '\U{0080}' && !IsDigit(c) && !IsSpace(c) && c !in NumericLetters
  }

  /** The signs, punctuation and letters that may occur in a numeric string besides digits and white space. */
  const NumericLetters: string := "+-.eExXoObBaAcCdDfFIinty"

  /** A string holding such a character (a URL, a path, most API keys) stays a string. */
  lemma TextStaysText(s: string, i: nat)
    requires i < |s| && NonNumeric(s[i])
    requires s != "true" && s != "false"
    ensures ParseValue(s) == Str(s)
  {
    NonDecimalStaysText(s, i);
  }

  /** A string holding a character that is not a digit, a sign or white space is no decimal literal. */
  lemma {:induction false} NonDecimalStaysText(s: string, i: nat)
    requires i < |s| && !IsDigit(s[i]) && !IsSpace(s[i]) && s[i] != '-' && s[i] != '+'
    requires s != "true" && s != "false"
    ensures ParseValue(s) == Str(s)
  {
    var a := TrimStart(s);
    var t := TrimEnd(a);
    assert t == Trim(s);
    var j := i - (|s| - |a|);
    assert 0 <= j < |a| && a[j] == s[i];
    assert j < |t| && t[j] == s[i];
    if j == 0 {
      assert !IsDigit(t[0]) && t[0] != '-' && t[0] != '+';
    } else {
      assert t[1..][j - 1] == t[j];
    }
  }

  /** Every path of the mapping names a section the store has. */
  predicate SectionsExist(cfg: Sections, entries: seq<Entry>) {
    forall i :: 0 <= i < |entries| ==> entries[i].path.section in cfg
  }

  /** No two rows of the mapping set the same path. */
  predicate DistinctPaths(entries: seq<Entry>) {
    forall i, j :: 0 <= i < j < |entries| ==> entries[i].path != entries[j].path
  }

  /** The key a row is read under: the environment key, or its lower-case form for arguments. */
  function SourceKey(envKey: string, fromArgs: bool): string {
    if fromArgs then Lower(envKey) else envKey
  }

  /**
   * `loadFromEnv` (`fromArgs` false) or `loadFromArgs` (`fromArgs` true)
   * after the first `|entries|` rows: each row whose key the source defines
   * sets its path to the parsed value.
   */
  function Load(cfg: Sections, entries: seq<Entry>, source: map<string, string>, fromArgs: bool): (r: Sections)
    requires SectionsExist(cfg, entries)
    ensures r.Keys == cfg.Keys
  {
    if entries == [] then cfg
    else
      var n := |entries| - 1;
      var prev := Load(cfg, entries[..n], source, fromArgs);
      var key := SourceKey(entries[n].envKey, fromArgs);
      if key in source then Put(prev, entries[n].path, ParseValue(source[key])) else prev
  }

  /** One row of `Load`, seen at one path: the last row sets `q` only when it maps `q` and its key is defined. */
  lemma LoadLastRow(cfg: Sections, entries: seq<Entry>, source: map<string, string>, fromArgs: bool, q: Path)
    requires SectionsExist(cfg, entries) && entries != [] && q.section in cfg
    ensures SectionsExist(cfg, entries[..|entries| - 1])
    ensures At(Load(cfg, entries, source, fromArgs), q) ==
      var last := entries[|entries| - 1];
      var key := SourceKey(last.envKey, fromArgs);
      if key in source && last.path == q then ParseValue(source[key])
      else At(Load(cfg, entries[..|entries| - 1], source, fromArgs), q)
  {
    var n := |entries| - 1;
    var prefix := entries[..n];
    assert SectionsExist(cfg, prefix);
    var prev := Load(cfg, prefix, source, fromArgs);
    var key := SourceKey(entries[n].envKey, fromArgs);
    assert Load(cfg, entries, source, fromArgs) ==
      if key in source then Put(prev, entries[n].path, ParseValue(source[key])) else prev;
  }

  /** Loading keeps the value of every path no row maps. */
  lemma {:induction false} LoadUnmapped(cfg: Sections, entries: seq<Entry>, source: map<string, string>,
                                        fromArgs: bool, q: Path)
    requires SectionsExist(cfg, entries) && q.section in cfg
    requires forall i :: 0 <= i < |entries| ==> entries[i].path != q
    ensures At(Load(cfg, entries, source, fromArgs), q) == At(cfg, q)
  {
    if entries != [] {
      var n := |entries| - 1;
      var prefix := entries[..n];
      LoadLastRow(cfg, entries, source, fromArgs, q);
      assert forall i :: 0 <= i < |prefix| ==> prefix[i].path != q;
      LoadUnmapped(cfg, prefix, source, fromArgs, q);
    }
  }

  /**
   * Loading gives a mapped path the parsed value of its row's key when the
   * source defines that key, and otherwise keeps its value.
   */
  lemma {:induction false} LoadMapped(cfg: Sections, entries: seq<Entry>, source: map<string, string>,
                                      fromArgs: bool, i: nat)
    requires SectionsExist(cfg, entries) && DistinctPaths(entries) && i < |entries|
    ensures At(Load(cfg, entries, source, fromArgs), entries[i].path) ==
      var key := SourceKey(entries[i].envKey, fromArgs);
      if key in source then ParseValue(source[key]) else At(cfg, entries[i].path)
  {
    var n := |entries| - 1;
    var prefix := entries[..n];
    var q := entries[i].path;
    LoadLastRow(cfg, entries, source, fromArgs, q);
    if i == n {
      assert forall j :: 0 <= j < |prefix| ==> prefix[j].path != q by {
        forall j | 0 <= j < |prefix| ensures prefix[j].path != q {
          assert prefix[j] == entries[j];
        }
      }
      LoadUnmapped(cfg, prefix, source, fromArgs, q);
    } else {
      assert DistinctPaths(prefix);
      assert prefix[i] == entries[i];
      assert entries[n].path != q;
      LoadMapped(cfg, prefix, source, fromArgs, i);
    }
  }

  /** A number that tells the mapping's paths apart: the section, then the key's length. */
  function PathRank(p: Path): int {
    (if p.section == "logging" then 0 else if p.section == "sonarr" then 100 else 200) + |p.key|
  }

  /** No two rows of `ENV_MAPPING` set the same path. */
  lemma EnvMappingPathsDistinct()
    ensures DistinctPaths(EnvMapping)
  {
    var ranks := [7, 103, 106, 116, 110, 203, 206, 216, 210, 221];
    assert forall i :: 0 <= i < |EnvMapping| ==> PathRank(EnvMapping[i].path) == ranks[i];
    assert forall i, j :: 0 <= i < j < |ranks| ==> ranks[i] != ranks[j];
  }

  /** `value !== undefined && value !== ''`: the rows the serialisers emit. */
  predicate Shown(v: Value) {
    v != Undefined && v != Str("")
  }

  /** The rows of `entries` whose value is shown, in their order. */
  function Emitted(cfg: Sections, entries: seq<Entry>): (r: seq<Entry>)
    requires SectionsExist(cfg, entries)
    ensures |r| <= |entries| && SectionsExist(cfg, r)
    ensures forall e :: e in r ==> e in entries && Shown(At(cfg, e.path))
  {
    if entries == [] then []
    else
      var n := |entries| - 1;
      Emitted(cfg, entries[..n]) + if Shown(At(cfg, entries[n].path)) then [entries[n]] else []
  }

  /** One more row extends the filter by that row when its value is shown. */
  lemma EmittedStep(cfg: Sections, entries: seq<Entry>, i: nat)
    requires i < |entries| && SectionsExist(cfg, entries)
    ensures SectionsExist(cfg, entries[..i]) && SectionsExist(cfg, entries[..i + 1])
    ensures Emitted(cfg, entries[..i + 1]) ==
            Emitted(cfg, entries[..i]) + if Shown(At(cfg, entries[i].path)) then [entries[i]] else []
  {
    assert entries[..i + 1][..i] == entries[..i];
    assert entries[..i + 1][i] == entries[i];
  }

  /** Every shown row is emitted. */
  lemma {:induction false} EmittedComplete(cfg: Sections, entries: seq<Entry>, e: Entry)
    requires SectionsExist(cfg, entries)
    requires e in entries && Shown(At(cfg, e.path))
    ensures e in Emitted(cfg, entries)
  {
    var n := |entries| - 1;
    if e != entries[n] {
      assert e in entries[..n];
      EmittedComplete(cfg, entries[..n], e);
    }
  }

  /** The filter keeps the order of the rows: it distributes over concatenation. */
  lemma {:induction false} EmittedAppend(cfg: Sections, a: seq<Entry>, b: seq<Entry>)
    requires SectionsExist(cfg, a) && SectionsExist(cfg, b)
    ensures SectionsExist(cfg, a + b)
    ensures Emitted(cfg, a + b) == Emitted(cfg, a) + Emitted(cfg, b)
  {
    assert SectionsExist(cfg, a + b) by {
      forall i | 0 <= i < |a + b| ensures (a + b)[i].path.section in cfg {
        if i >= |a| { assert (a + b)[i] == b[i - |a|]; }
      }
    }
    if b == [] {
      assert a + b == a;
    } else {
      var n := |b| - 1;
      assert (a + b)[..|a + b| - 1] == a + b[..n];
      assert (a + b)[|a + b| - 1] == b[n];
      assert SectionsExist(cfg, b[..n]);
      EmittedAppend(cfg, a, b[..n]);
    }
  }

  /** `${envKey}=${value}\n`. */
  function EnvLine(cfg: Sections, e: Entry): string
    requires e.path.section in cfg
  {
    e.envKey + "=" + Display(At(cfg, e.path)) + "\n"
  }

  /** The lines of the emitted rows, concatenated in order. */
  function EnvLines(cfg: Sections, emitted: seq<Entry>): string
    requires SectionsExist(cfg, emitted)
  {
    if emitted == [] then ""
    else
      var n := |emitted| - 1;
      EnvLines(cfg, emitted[..n]) + EnvLine(cfg, emitted[n])
  }

  /** The text `"` … `"` would need: a space, a backslash or a double quote. */
  predicate NeedsQuotes(s: string) {
    ' ' in s || '\\' in s || '"' in s
  }

  /** `.replace(/"/g, '\\"')`: a backslash before every double quote. */
  function EscapeQuotes(s: string): (r: string)
    ensures |r| >= |s|
    ensures '"' !in s ==> r == s
  {
    if s == [] then []
    else (if s[0] == '"' then "\\\"" else [s[0]]) + EscapeQuotes(s[1..])
  }

  /** Reading escaped text back: `\"` becomes `"`, every other character stays. */
  function UnescapeQuotes(s: string): string
    decreases |s|
  {
    if |s| >= 2 && s[0] == '\\' && s[1] == '"' then "\"" + UnescapeQuotes(s[2..])
    else if s == [] then []
    else [s[0]] + UnescapeQuotes(s[1..])
  }

  /** Escaping double quotes loses nothing. */
  lemma {:induction false} UnescapeEscapeQuotes(s: string)
    ensures UnescapeQuotes(EscapeQuotes(s)) == s
  {
    if s != [] {
      UnescapeEscapeQuotes(s[1..]);
      var rest := EscapeQuotes(s[1..]);
      if s[0] == '"' {
        assert EscapeQuotes(s) == "\\\"" + rest;
        assert EscapeQuotes(s)[2..] == rest;
      } else {
        assert EscapeQuotes(s) == [s[0]] + rest;
        assert EscapeQuotes(s)[1..] == rest;
        if s[0] == '\\' && rest != [] {
          assert rest[0] != '"' by {
            if s[1] == '"' { assert rest[0] == '\\'; } else { assert rest[0] == s[1]; }
          }
        }
      }
    }
  }

  /**
   * The text of a value in `--key=value`: a string needing quotes is wrapped
   * in double quotes with its quotes escaped; anything else is `String(value)`.
   */
  function FormatValue(v: Value): (r: string)
    ensures v.Str? && !NeedsQuotes(v.s) ==> r == v.s
    ensures v.Str? && NeedsQuotes(v.s) ==> |r| >= 2 && r[0] == '"' && r[|r| - 1] == '"'
    ensures v.Bool? ==> r == (if v.b then "true" else "false")
  {
    match v
    case Str(s) => if NeedsQuotes(s) then "\"" + EscapeQuotes(s) + "\"" else s
    case _ => Display(v)
  }

  /** Reading a formatted string back: strip the quotes and unescape, or take it as it is. */
  function ReadFormatted(t: string): string {
    if |t| >= 2 && t[0] == '"' && t[|t| - 1] == '"' then UnescapeQuotes(t[1..|t| - 1]) else t
  }

  /** The quoting rule is unambiguous: every string value can be read back from its text. */
  lemma FormatValueRoundTrip(s: string)
    ensures ReadFormatted(FormatValue(Str(s))) == s
  {
    var r := FormatValue(Str(s));
    if NeedsQuotes(s) {
      assert r[1..|r| - 1] == EscapeQuotes(s);
      UnescapeEscapeQuotes(s);
    } else {
      assert '"' !in s;
      assert s != [] ==> s[0] in s;
    }
  }

  /** `--${key}=${formattedValue}` with the lower-case environment key. */
  function Arg(cfg: Sections, e: Entry): string
    requires e.path.section in cfg
  {
    "--" + Lower(e.envKey) + "=" + FormatValue(At(cfg, e.path))
  }

  /** The argument list of `toNpxCommand` and `toMCPFormat`: one argument per emitted row. */
  function Args(cfg: Sections, emitted: seq<Entry>): (r: seq<string>)
    requires SectionsExist(cfg, emitted)
    ensures |r| == |emitted|
    ensures forall i :: 0 <= i < |emitted| ==> r[i] == Arg(cfg, emitted[i])
  {
    seq(|emitted|, i requires 0 <= i < |emitted| => Arg(cfg, emitted[i]))
  }

  /** An entry of the `validateRequired` report: the dotted path and its environment key. */
  datatype Missing = Missing(path: string, envKey: string)

  /**
   * The first mapping key whose path is `p`, the key the
   * `Object.entries(ENV_MAPPING).find(...)` of `validateRequired` finds.
   */
  function FindKey(entries: seq<Entry>, p: Path): Option<string> {
    if entries == [] then None
    else if entries[0].path == p then Some(entries[0].envKey)
    else FindKey(entries[1..], p)
  }

  /** The search finds the first row whose path is `p`. */
  lemma {:induction false} FindKeyFirst(entries: seq<Entry>, i: nat)
    requires i < |entries|
    requires forall j :: 0 <= j < i ==> entries[j].path != entries[i].path
    ensures FindKey(entries, entries[i].path) == Some(entries[i].envKey)
  {
    if i > 0 {
      assert entries[0].path != entries[i].path;
      assert entries[1..][i - 1] == entries[i];
      assert forall j :: 0 <= j < i - 1 ==> entries[1..][j] == entries[j + 1];
      FindKeyFirst(entries[1..], i - 1);
    }
  }

  /** The search finds nothing when no row has path `p`. */
  lemma {:induction false} FindKeyAbsent(entries: seq<Entry>, p: Path)
    requires forall j :: 0 <= j < |entries| ==> entries[j].path != p
    ensures FindKey(entries, p) == None
  {
    if entries != [] {
      assert forall j :: 0 <= j < |entries| - 1 ==> entries[1..][j] == entries[j + 1];
      FindKeyAbsent(entries[1..], p);
    }
  }

  /**
   * The report entry of `p`: `path.join('.')` and `envKey || path.join('_').toUpperCase()`,
   * so a missing or empty mapping key falls back to the upper-cased path.
   */
  function MissingEntry(mapping: seq<Entry>, p: Path): Missing {
    var key := FindKey(mapping, p);
    Missing(p.section + "." + p.key, if key.Some? && key.value != "" then key.value else Upper(p.section + "_" + p.key))
  }

  /** The paths of `required` whose value is falsy, in table order. */
  function FalsyPaths(cfg: Sections, required: seq<Path>): (r: seq<Path>)
    requires forall i :: 0 <= i < |required| ==> required[i].section in cfg
    ensures |r| <= |required|
  {
    if required == [] then []
    else
      var n := |required| - 1;
      FalsyPaths(cfg, required[..n]) + if !Truthy(At(cfg, required[n])) then [required[n]] else []
  }

  /** Only required paths with a falsy value are reported. */
  lemma {:induction false} FalsyPathsSound(cfg: Sections, required: seq<Path>, p: Path)
    requires forall i :: 0 <= i < |required| ==> required[i].section in cfg
    requires p in FalsyPaths(cfg, required)
    ensures p in required && !Truthy(At(cfg, p))
  {
    var n := |required| - 1;
    if p in FalsyPaths(cfg, required[..n]) {
      FalsyPathsSound(cfg, required[..n], p);
    }
  }

  /** Every required path with a falsy value is reported. */
  lemma {:induction false} FalsyPathsComplete(cfg: Sections, required: seq<Path>, p: Path)
    requires forall i :: 0 <= i < |required| ==> required[i].section in cfg
    requires p in required && !Truthy(At(cfg, p))
    ensures p in FalsyPaths(cfg, required)
  {
    var n := |required| - 1;
    if p != required[n] {
      assert p in required[..n];
      FalsyPathsComplete(cfg, required[..n], p);
    }
  }

  /** The report keeps the table order: it distributes over concatenation. */
  lemma {:induction false} FalsyPathsAppend(cfg: Sections, a: seq<Path>, b: seq<Path>)
    requires forall i :: 0 <= i < |a| ==> a[i].section in cfg
    requires forall i :: 0 <= i < |b| ==> b[i].section in cfg
    ensures forall i :: 0 <= i < |a + b| ==> (a + b)[i].section in cfg
    ensures FalsyPaths(cfg, a + b) == FalsyPaths(cfg, a) + FalsyPaths(cfg, b)
  {
    assert forall i :: 0 <= i < |a + b| ==> (a + b)[i] == if i < |a| then a[i] else b[i - |a|];
    if b == [] {
      assert a + b == a;
    } else {
      var n := |b| - 1;
      assert (a + b)[..|a + b| - 1] == a + b[..n];
      assert (a + b)[|a + b| - 1] == b[n];
      FalsyPathsAppend(cfg, a, b[..n]);
    }
  }

  /** The report entries of `paths`, one each, in order. */
  function Report(mapping: seq<Entry>, paths: seq<Path>): (r: seq<Missing>)
    ensures |r| == |paths|
    ensures forall i :: 0 <= i < |paths| ==> r[i] == MissingEntry(mapping, paths[i])
  {
    if paths == [] then []
    else
      var n := |paths| - 1;
      Report(mapping, paths[..n]) + [MissingEntry(mapping, paths[n])]
  }

  /** The `missing` list of `validateRequired`. */
  function MissingList(cfg: Sections, required: seq<Path>, mapping: seq<Entry>): seq<Missing>
    requires forall i :: 0 <= i < |required| ==> required[i].section in cfg
  {
    Report(mapping, FalsyPaths(cfg, required))
  }

  /** One more path: the report grows by that path exactly when its value is falsy. */
  lemma FalsyPathsSnoc(cfg: Sections, xs: seq<Path>, p: Path)
    requires forall i :: 0 <= i < |xs| ==> xs[i].section in cfg
    requires p.section in cfg
    ensures forall i :: 0 <= i < |xs + [p]| ==> (xs + [p])[i].section in cfg
    ensures FalsyPaths(cfg, xs + [p]) == FalsyPaths(cfg, xs) + if !Truthy(At(cfg, p)) then [p] else []
  {
    assert (xs + [p])[..|xs|] == xs;
  }

  /** The report over a service's three paths when its URL is set and its key and folder are not. */
  lemma FalsyPathsOfService(cfg: Sections, r: seq<Path>)
    requires |r| == 3 && forall i :: 0 <= i < |r| ==> r[i].section in cfg
    requires Truthy(At(cfg, r[0])) && !Truthy(At(cfg, r[1])) && !Truthy(At(cfg, r[2]))
    ensures FalsyPaths(cfg, r) == [r[1], r[2]]
  {
    FalsyPathsSnoc(cfg, [], r[0]);
    assert [] + [r[0]] == [r[0]];
    FalsyPathsSnoc(cfg, [r[0]], r[1]);
    assert [r[0]] + [r[1]] == [r[0], r[1]];
    FalsyPathsSnoc(cfg, [r[0], r[1]], r[2]);
    assert r == [r[0], r[1]] + [r[2]];
  }

  /** The report over six paths whose second, third, fifth and sixth values are falsy. */
  lemma FalsyPathsOfSix(cfg: Sections, r: seq<Path>)
    requires |r| == 6 && forall i :: 0 <= i < |r| ==> r[i].section in cfg
    requires Truthy(At(cfg, r[0])) && !Truthy(At(cfg, r[1])) && !Truthy(At(cfg, r[2]))
    requires Truthy(At(cfg, r[3])) && !Truthy(At(cfg, r[4])) && !Truthy(At(cfg, r[5]))
    ensures FalsyPaths(cfg, r) == [r[1], r[2], r[4], r[5]]
  {
    var a, b := r[..3], r[3..];
    assert a[0] == r[0] && a[1] == r[1] && a[2] == r[2];
    assert b[0] == r[3] && b[1] == r[4] && b[2] == r[5];
    FalsyPathsOfService(cfg, a);
    FalsyPathsOfService(cfg, b);
    assert r == a + b;
    FalsyPathsAppend(cfg, a, b);
  }

  /** The report of a store whose URLs are set and whose API keys and root folders are not. */
  lemma OnlyKeysAndFoldersFalsy(cfg: Sections)
    requires forall i :: 0 <= i < |Required| ==> Required[i].section in cfg
    requires Truthy(At(cfg, Required[0])) && !Truthy(At(cfg, Required[1])) && !Truthy(At(cfg, Required[2]))
    requires Truthy(At(cfg, Required[3])) && !Truthy(At(cfg, Required[4])) && !Truthy(At(cfg, Required[5]))
    ensures FalsyPaths(cfg, Required) == [Required[1], Required[2], Required[4], Required[5]]
  {
    FalsyPathsOfSix(cfg, Required);
  }

  /** A path the mapping lists is reported under the key of its first row, unless that key is empty. */
  lemma MissingEntryOfMapped(mapping: seq<Entry>, i: nat)
    requires i < |mapping|
    requires forall j :: 0 <= j < i ==> mapping[j].path != mapping[i].path
    ensures mapping[i].envKey != "" ==>
              MissingEntry(mapping, mapping[i].path) ==
              Missing(mapping[i].path.section + "." + mapping[i].path.key, mapping[i].envKey)
    ensures mapping[i].envKey == "" ==>
              MissingEntry(mapping, mapping[i].path) ==
              Missing(mapping[i].path.section + "." + mapping[i].path.key,
                      Upper(mapping[i].path.section + "_" + mapping[i].path.key))
  {
    FindKeyFirst(mapping, i);
  }

  /** A path the mapping does not list is reported under its upper-cased `section_key`. */
  lemma MissingEntryOfUnmapped(mapping: seq<Entry>, p: Path)
    requires forall j :: 0 <= j < |mapping| ==> mapping[j].path != p
    ensures MissingEntry(mapping, p) == Missing(p.section + "." + p.key, Upper(p.section + "_" + p.key))
  {
    FindKeyAbsent(mapping, p);
  }

  /** With nothing configured, the falsy required values are the API keys and the root folders. */
  lemma DefaultsFalsyPaths(home: string)
    ensures FalsyPaths(Defaults(home), Required) == [Required[1], Required[2], Required[4], Required[5]]
  {
    var d := Defaults(home);
    assert Truthy(At(d, Required[0])) && !Truthy(At(d, Required[1])) && !Truthy(At(d, Required[2]));
    assert Truthy(At(d, Required[3])) && !Truthy(At(d, Required[4])) && !Truthy(At(d, Required[5]));
    OnlyKeysAndFoldersFalsy(d);
  }

  /** A row of `ENV_MAPPING` is reported under its own key: no earlier row has its path. */
  lemma MissingEntryOfRow(i: nat)
    requires i < |EnvMapping|
    ensures MissingEntry(EnvMapping, EnvMapping[i].path) ==
      Missing(EnvMapping[i].path.section + "." + EnvMapping[i].path.key, EnvMapping[i].envKey)
  {
    EnvMappingPathsDistinct();
    assert forall j :: 0 <= j < |EnvMapping| ==> |EnvMapping[j].envKey| > 0;
    MissingEntryOfMapped(EnvMapping, i);
  }

  /** The report of four paths lists their four entries. */
  lemma ReportOfFour(mapping: seq<Entry>, a: Path, b: Path, c: Path, d: Path)
    ensures Report(mapping, [a, b, c, d]) ==
      [MissingEntry(mapping, a), MissingEntry(mapping, b), MissingEntry(mapping, c), MissingEntry(mapping, d)]
  {
  }

  /** The report entries of the API keys and the root folders: `path.join('.')` and the mapping key. */
  lemma KeysAndFoldersReport()
    ensures Report(EnvMapping, [EnvMapping[2].path, EnvMapping[4].path, EnvMapping[6].path, EnvMapping[8].path]) ==
      [Missing("sonarr" + "." + "apiKey", "SONARR_API_KEY"),
       Missing("sonarr" + "." + "rootFolder", "SONARR_ROOT_FOLDER"),
       Missing("radarr" + "." + "apiKey", "RADARR_API_KEY"),
       Missing("radarr" + "." + "rootFolder", "RADARR_ROOT_FOLDER")]
  {
    ReportOfFour(EnvMapping, EnvMapping[2].path, EnvMapping[4].path, EnvMapping[6].path, EnvMapping[8].path);
    MissingEntryOfRow(2);
    MissingEntryOfRow(4);
    MissingEntryOfRow(6);
    MissingEntryOfRow(8);
  }

  /**
   * With nothing configured, `validateRequired` reports the two API keys and
   * the two root folders, each under its environment key.
   */
  lemma DefaultsReport(home: string)
    ensures MissingList(Defaults(home), Required, EnvMapping) ==
      [Missing("sonarr" + "." + "apiKey", "SONARR_API_KEY"),
       Missing("sonarr" + "." + "rootFolder", "SONARR_ROOT_FOLDER"),
       Missing("radarr" + "." + "apiKey", "RADARR_API_KEY"),
       Missing("radarr" + "." + "rootFolder", "RADARR_ROOT_FOLDER")]
  {
    DefaultsFalsyPaths(home);
    KeysAndFoldersRows();
    KeysAndFoldersReport();
  }

  /** The API keys and root folders are the rows 2, 4, 6 and 8 of the mapping. */
  lemma KeysAndFoldersRows()
    ensures Required[1] == EnvMapping[2].path && Required[2] == EnvMapping[4].path
    ensures Required[4] == EnvMapping[6].path && Required[5] == EnvMapping[8].path
  {
  }

  /** Both tables refer only to the three sections of the defaults. */
  lemma TableSections(cfg: Sections)
    requires "logging" in cfg && "sonarr" in cfg && "radarr" in cfg
    ensures forall i :: 0 <= i < |Required| ==> Required[i].section in cfg
    ensures SectionsExist(cfg, EnvMapping)
  {
    assert forall i :: 0 <= i < |Required| ==> Required[i].section in {"sonarr", "radarr"};
    assert forall i :: 0 <= i < |EnvMapping| ==> EnvMapping[i].path.section in {"logging", "sonarr", "radarr"};
  }

  /** A configuration server as `toMCPFormat` describes it. */
  datatype McpServer = McpServer(command: string, args: seq<string>)

  /** The `config` singleton. */
  class Store {
    var config: Sections

    /** The sections every table path refers to exist. */
    predicate Valid()
      reads this
    {
      "logging" in config && "sonarr" in config && "radarr" in config
    }

    /** `new Config()`: a copy of the defaults, then `loadFromEnv`. */
    constructor (home: string, env: Env)
      ensures Valid()
      ensures config == Load(Defaults(home), EnvMapping, env, false)
    {
      config := Defaults(home);
      new;
      LoadFromEnv(env);
    }

    /** `get(path)`. */
    function Get(p: Path): (v: Value)
      reads this
      requires p.section in config
      ensures p.key !in config[p.section] ==> v == Undefined
    {
      At(config, p)
    }

    /** `set(path, value)`: walk to the section, assign the key. */
    method Set(p: Path, v: Value)
      requires p.section in config
      modifies this
      ensures config == Put(old(config), p, v)
    {
      var current := config[p.section];
      current := current[p.key := v];
      config := config[p.section := current];
    }

    /** `loadFromEnv()`: every mapping row whose variable is set, in order. */
    method LoadFromEnv(env: Env)
      requires Valid()
      modifies this
      ensures Valid()
      ensures config == Load(old(config), EnvMapping, env, false)
    {
      TableSections(config);
      LoadRows(EnvMapping, env, false);
    }

    /** `loadFromArgs(args)`: the same rows, read under the lower-case keys. */
    method LoadFromArgs(args: map<string, string>)
      requires Valid()
      modifies this
      ensures Valid()
      ensures config == Load(old(config), EnvMapping, args, true)
    {
      TableSections(config);
      LoadRows(EnvMapping, args, true);
    }

    /** The loop both loaders share, over the rows `entries`. */
    method LoadRows(entries: seq<Entry>, source: map<string, string>, fromArgs: bool)
      requires Valid() && SectionsExist(config, entries)
      modifies this
      ensures Valid()
      ensures config == Load(old(config), entries, source, fromArgs)
    {
      for i := 0 to |entries|
        invariant Valid() && config.Keys == old(config).Keys
        invariant config == Load(old(config), entries[..i], source, fromArgs)
      {
        assert entries[..i + 1][..i] == entries[..i];
        var key := SourceKey(entries[i].envKey, fromArgs);
        if key in source {
          Set(entries[i].path, ParseValue(source[key]));
        }
      }
      assert entries[..|entries|] == entries;
    }

    /** The list `validateRequired` reports before it ends the process. */
    method MissingRequired() returns (missing: seq<Missing>)
      requires Valid()
      ensures missing == MissingList(config, Required, EnvMapping)
    {
      TableSections(config);
      missing := MissingOf(Required, EnvMapping);
    }

    /** The `missing.push` loop of `validateRequired` over the paths `required`. */
    method MissingOf(required: seq<Path>, mapping: seq<Entry>) returns (missing: seq<Missing>)
      requires forall i :: 0 <= i < |required| ==> required[i].section in config
      ensures missing == MissingList(config, required, mapping)
    {
      missing := [];
      for i := 0 to |required|
        invariant missing == MissingList(config, required[..i], mapping)
      {
        assert required[..i + 1][..i] == required[..i];
        ghost var before := FalsyPaths(config, required[..i]);
        var value := Get(required[i]);
        if !Truthy(value) {
          assert FalsyPaths(config, required[..i + 1]) == before + [required[i]];
          assert (before + [required[i]])[..|before|] == before;
          missing := missing + [MissingEntry(mapping, required[i])];
        } else {
          assert FalsyPaths(config, required[..i + 1]) == before;
        }
      }
      assert required[..|required|] == required;
    }

    /** `toEnvString()`: one line per shown row, in mapping order, the whole trimmed. */
    method ToEnvString() returns (output: string)
      requires Valid()
      ensures output == Trim(EnvLines(config, Emitted(config, EnvMapping)))
    {
      TableSections(config);
      output := LinesOf(EnvMapping);
      output := Trim(output);
    }

    /** The `output +=` loop of `toEnvString` over the rows `entries`. */
    method LinesOf(entries: seq<Entry>) returns (output: string)
      requires SectionsExist(config, entries)
      ensures output == EnvLines(config, Emitted(config, entries))
    {
      output := "";
      for i := 0 to |entries|
        invariant output == EnvLines(config, Emitted(config, entries[..i]))
      {
        EmittedStep(config, entries, i);
        var entry := entries[i];
        var value := Get(entry.path);
        if Shown(value) {
          ghost var before := Emitted(config, entries[..i]);
          assert Emitted(config, entries[..i + 1]) == before + [entry];
          assert (before + [entry])[..|before|] == before;
          var line := entry.envKey + "=" + Display(value) + "\n";
          assert line == EnvLine(config, entry);
          assert EnvLines(config, before + [entry]) == EnvLines(config, before) + line;
          output := output + line;
        } else {
          assert Emitted(config, entries[..i + 1]) == Emitted(config, entries[..i]);
        }
      }
      assert entries[..|entries|] == entries;
    }

    /** The argument list both `toNpxCommand` and `toMCPFormat` build. */
    method CommandArgs() returns (args: seq<string>)
      requires Valid()
      ensures args == Args(config, Emitted(config, EnvMapping))
    {
      TableSections(config);
      args := ArgsOf(EnvMapping);
    }

    /** The `args.push` loop over the rows `entries`. */
    method ArgsOf(entries: seq<Entry>) returns (args: seq<string>)
      requires SectionsExist(config, entries)
      ensures args == Args(config, Emitted(config, entries))
    {
      args := [];
      for i := 0 to |entries|
        invariant args == Args(config, Emitted(config, entries[..i]))
      {
        EmittedStep(config, entries, i);
        var entry := entries[i];
        var value := Get(entry.path);
        if Shown(value) {
          ghost var before := Emitted(config, entries[..i]);
          assert Emitted(config, entries[..i + 1]) == before + [entry];
          assert (before + [entry])[..|before|] == before;
          var arg := "--" + Lower(entry.envKey) + "=" + FormatValue(value);
          assert arg == Arg(config, entry);
          assert Args(config, before + [entry]) == Args(config, before) + [arg];
          args := args + [arg];
        } else {
          assert Emitted(config, entries[..i + 1]) == Emitted(config, entries[..i]);
        }
      }
      assert entries[..|entries|] == entries;
    }

    /** `toNpxCommand()`: the arguments joined by spaces after `npx gptdarr`. */
    method ToNpxCommand() returns (command: string)
      requires Valid()
      ensures command == "npx gptdarr " + JoinWith(Args(config, Emitted(config, EnvMapping)), " ")
    {
      var args := CommandArgs();
      command := "npx gptdarr " + JoinWith(args, " ");
    }

    /** `toMCPFormat()`, as the server entry it serialises: the same argument list. */
    method ToMCPFormat() returns (server: McpServer)
      requires Valid()
      ensures server == McpServer("npx gptdarr", Args(config, Emitted(config, EnvMapping)))
    {
      var args := CommandArgs();
      server := McpServer("npx gptdarr", args);
    }
  }
}
