/** Configuration loading (pkg/env/env.go): the `KEY=value` file parser,
    the choice between the process environment and the file, the
    defaults, and the final validity check. */
module Env {
  import opened Common
  import opened Strings

  // ---------------------------------------------------------------------
  // The file parser
  // ---------------------------------------------------------------------

  /** One line of the file: a blank line, a `#` comment, a line without `=`
      and a line with an empty key give nothing; otherwise the line is split
      at its first `=`, both sides are trimmed and the value loses its
      surrounding double quotes. */
  function ParseLine(raw: string): (r: Option<(string, string)>)
    ensures '=' !in raw ==> r == None
    ensures r.Some? ==> r.value.0 != [] && '=' !in r.value.0
    // a parsed key and value carry no surrounding blanks, and the value no
    // surrounding double quotes
    ensures r.Some? ==> Trimmed(r.value.0, Blanks) && Trimmed(r.value.1, Quotes)
  {
    TrimKeepsOut(raw, Blanks, '=');
    ParseTrimmed(TrimSpace(raw))
  }

  /** The part of the loop body after the line is trimmed. */
  function ParseTrimmed(line: string): (r: Option<(string, string)>)
    ensures '=' !in line ==> r == None
    ensures r.Some? ==> r.value.0 != [] && '=' !in r.value.0
    ensures r.Some? ==> Trimmed(r.value.0, Blanks) && Trimmed(r.value.1, Quotes)
  {
    if line == "" || HasPrefix(line, "#") then None
    else
      var i := IndexOf(line, '=');
      if i < 0 then None
      else
        TrimKeepsOut(line[..i], Blanks, '=');
        var key := TrimSpace(line[..i]);
        var val := Trim(TrimSpace(line[i + 1..]), Quotes);
        if key != "" then Some((key, val)) else None
  }

  /** Blank lines and comments are skipped. */
  lemma ParseLineSkips(raw: string)
    requires TrimSpace(raw) == [] || TrimSpace(raw)[0] == '#'
    ensures ParseLine(raw) == None
  {
    var line := TrimSpace(raw);
    if line != [] {
      assert line[..1] == "#";
    }
  }

  /** A line written as `key=value` reads back as exactly that pair, even
      when the value itself contains `=`. */
  lemma ParseAssignment(key: string, value: string)
    requires key != [] && '=' !in key && key[0] != '#'
    requires Trimmed(key, Blanks) && Trimmed(value, Blanks) && Trimmed(value, Quotes)
    ensures ParseLine(key + "=" + value) == Some((key, value))
  {
    var line := key + "=" + value;
    assert line == key + ['='] + value;
    assert TrimSpace(line) == line by {
      assert line[0] == key[0];
      assert line[|line| - 1] == if value == [] then '=' else value[|value| - 1];
      TrimUnchanged(line, Blanks);
    }
    IndexOfFirst(key, '=', value);
    ParseSplit(line, key, value);
  }

  lemma ParseSplit(line: string, key: string, value: string)
    requires key != [] && key[0] != '#' && IndexOf(line, '=') == |key|
    requires line[..|key|] == key && line[|key| + 1..] == value
    requires Trimmed(key, Blanks) && Trimmed(value, Blanks) && Trimmed(value, Quotes)
    ensures ParseTrimmed(line) == Some((key, value))
  {
    assert line != "" && !HasPrefix(line, "#") by { assert line[..1][0] == key[0]; }
    var i := IndexOf(line, '=');
    assert TrimSpace(line[..i]) == key by { TrimUnchanged(key, Blanks); }
    assert Trim(TrimSpace(line[i + 1..]), Quotes) == value by {
      TrimUnchanged(value, Blanks);
      TrimUnchanged(value, Quotes);
    }
    ParseTrimmedSome(line, key, value);
  }

  /** The branch of `ParseTrimmed` that yields a pair. */
  lemma ParseTrimmedSome(line: string, key: string, value: string)
    requires line != "" && !HasPrefix(line, "#") && '=' in line && key != ""
    requires TrimSpace(line[..IndexOf(line, '=')]) == key
    requires Trim(TrimSpace(line[IndexOf(line, '=') + 1..]), Quotes) == value
    ensures ParseTrimmed(line) == Some((key, value))
  {
  }

  /** What a line with an `=` gives, for every such line: the text before
      its first `=` and the text after it, each without its surrounding
      blanks, and the value also without its surrounding double quotes;
      nothing when that key is empty or the trimmed line is a comment. */
  lemma ParseLineMeaning(lhs: string, rhs: string)
    requires '=' !in lhs
    ensures ParseLine(lhs + "=" + rhs)
      == if TrimSpace(lhs) == [] || TrimSpace(lhs)[0] == '#' then None
         else Some((TrimSpace(lhs), Trim(TrimSpace(rhs), Quotes)))
  {
    var l0, r0 := TrimLeft(lhs, Blanks), TrimRight(rhs, Blanks);
    var key, val := TrimSpace(lhs), Trim(TrimSpace(rhs), Quotes);
    var line := TrimmedLineShape(lhs, rhs);
    assert TrimSpace(line[..|l0|]) == key by {
      assert line[..|l0|] == l0;
      TrimAfterTrimLeft(lhs, Blanks);
    }
    assert Trim(TrimSpace(line[|l0| + 1..]), Quotes) == val by {
      assert line[|l0| + 1..] == r0;
      TrimAfterTrimRight(rhs, Blanks);
    }
    assert HasPrefix(line, "#") || key == [] <==> key == [] || key[0] == '#' by {
      TrimAfterTrimLeft(lhs, Blanks);
      HasPrefixChar(line, '#');
      assert line[0] == if l0 == [] then '=' else l0[0];
    }
    ParseTrimmedAt(line, |l0|);
  }

  /** A line written as `key="value"` reads back as the key and the value
      without its quotes, whatever blanks or `=` the value holds. */
  lemma ParseQuotedAssignment(key: string, value: string)
    requires key != [] && '=' !in key && key[0] != '#'
    requires Trimmed(key, Blanks) && Trimmed(value, Quotes)
    ensures ParseLine(key + "=\"" + value + "\"") == Some((key, value))
  {
    var quoted := "\"" + value + "\"";
    assert TrimSpace(key) == key by {
      TrimUnchanged(key, Blanks);
    }
    assert Trim(TrimSpace(quoted), Quotes) == value by {
      assert TrimSpace(quoted) == quoted by {
        SeparatorsAreNotBlanks();
        assert quoted[0] == '"' && quoted[|quoted| - 1] == '"';
        TrimUnchanged(quoted, Blanks);
      }
      TrimQuoted(value);
    }
    ParseLineMeaning(key, quoted);
    QuotedLine(key, value);
  }

  lemma QuotedLine(key: string, value: string)
    ensures key + "=\"" + value + "\"" == key + "=" + ("\"" + value + "\"")
  {
    assert "=\"" == "=" + "\"";
    Associate(key, "=", "\"", value, "\"");
  }

  /** Blanks around the key, around `=` and after the value are dropped:
      `  key  =  value  ` reads back as the pair. */
  lemma ParseSpacedAssignment(w0: string, key: string, w1: string, w2: string, value: string, w3: string)
    requires AllCut(w0, Blanks) && AllCut(w1, Blanks) && AllCut(w2, Blanks) && AllCut(w3, Blanks)
    requires key != [] && '=' !in key && key[0] != '#'
    requires Trimmed(key, Blanks) && Trimmed(value, Blanks) && Trimmed(value, Quotes)
    ensures ParseLine(w0 + key + w1 + "=" + w2 + value + w3) == Some((key, value))
  {
    var lhs, rhs := w0 + key + w1, w2 + value + w3;
    assert w0 + key + w1 + "=" + w2 + value + w3 == lhs + "=" + rhs;
    assert '=' !in lhs by {
      AllCutKeepsOut(w0, Blanks, '=');
      AllCutKeepsOut(w1, Blanks, '=');
    }
    ParseLineMeaning(lhs, rhs);
    assert TrimSpace(lhs) == key by {
      TrimPadded(w0, key, w1, Blanks);
      TrimUnchanged(key, Blanks);
    }
    assert Trim(TrimSpace(rhs), Quotes) == value by {
      TrimPadded(w2, value, w3, Blanks);
      TrimUnchanged(value, Blanks);
      TrimUnchanged(value, Quotes);
    }
  }

  /** `ParseTrimmed` on a line whose first `=` is at `i`. */
  lemma ParseTrimmedAt(line: string, i: nat)
    requires i < |line| && IndexOf(line, '=') == i
    ensures ParseTrimmed(line)
      == if HasPrefix(line, "#") || TrimSpace(line[..i]) == [] then None
         else Some((TrimSpace(line[..i]), Trim(TrimSpace(line[i + 1..]), Quotes)))
  {
    var key := TrimSpace(line[..i]);
    assert line != "";
    if !HasPrefix(line, "#") && key != [] {
      ParseTrimmedSome(line, key, Trim(TrimSpace(line[i + 1..]), Quotes));
    }
  }

  /** A line with an `=` is trimmed at the front of its key part and the
      back of its value part only, and its first `=` stays where it was
      in the trimmed key part. */
  lemma TrimmedLineShape(lhs: string, rhs: string) returns (line: string)
    requires '=' !in lhs
    ensures line == TrimSpace(lhs + "=" + rhs)
    ensures line == TrimLeft(lhs, Blanks) + "=" + TrimRight(rhs, Blanks)
    ensures IndexOf(line, '=') == |TrimLeft(lhs, Blanks)|
    ensures ParseLine(lhs + "=" + rhs) == ParseTrimmed(line)
  {
    var l0, r0 := TrimLeft(lhs, Blanks), TrimRight(rhs, Blanks);
    TrimAround(lhs, '=', rhs, Blanks);
    line := l0 + "=" + r0;
    TrimLeftSuffix(lhs, Blanks);
    IndexOfFirst(l0, '=', r0);
  }

  /** What each line of the file gives, in file order. */
  function Entries(lines: seq<string>): (es: seq<Option<(string, string)>>)
    ensures |es| == |lines|
    ensures forall i :: 0 <= i < |lines| ==> es[i] == ParseLine(lines[i])
  {
    seq(|lines|, i requires 0 <= i < |lines| => ParseLine(lines[i]))
  }

  /** The map built by storing the entries one after the other: a later
      entry overwrites an earlier one with the same key. */
  function Assign(es: seq<Option<(string, string)>>): map<string, string>
    decreases |es|
  {
    if es == [] then map[]
    else
      var m := Assign(es[..|es| - 1]);
      match es[|es| - 1]
      case None => m
      case Some(kv) => m[kv.0 := kv.1]
  }

  lemma AssignStep(es: seq<Option<(string, string)>>, n: nat)
    requires n < |es|
    ensures Assign(es[..n + 1]) == if es[n].None? then Assign(es[..n])
                                   else Assign(es[..n])[es[n].value.0 := es[n].value.1]
  {
    assert es[..n + 1][..n] == es[..n];
  }

  function ParsedMap(lines: seq<string>): map<string, string> {
    Assign(Entries(lines))
  }

  /** The loop of `parseEnvFile` over the scanner's lines. */
  method ParseEnvFile(lines: seq<string>) returns (m: map<string, string>)
    ensures m == ParsedMap(lines)
  {
    m := map[];
    ghost var es := Entries(lines);
    for n := 0 to |lines|
      invariant m == Assign(es[..n])
    {
      AssignStep(es, n);
      assert es[n] == ParseTrimmed(TrimSpace(lines[n]));
      var line := TrimSpace(lines[n]);
      if line == "" || HasPrefix(line, "#") {
        assert es[n] == None;
        continue;
      }
      var i := IndexOf(line, '=');
      if i < 0 {
        assert es[n] == None;
        continue;
      }
      var key := TrimSpace(line[..i]);
      var val := TrimSpace(line[i + 1..]);
      val := Trim(val, Quotes);
      if key != "" {
        assert es[n] == Some((key, val));
        m := m[key := val];
      } else {
        assert es[n] == None;
      }
    }
    assert es[..|lines|] == es;
  }

  /** A key is in the map exactly when some entry has it, and then it
      holds the value of the last entry that does. */
  lemma {:induction false} AssignLastWins(es: seq<Option<(string, string)>>, key: string)
    ensures key in Assign(es) <==> exists i :: 0 <= i < |es| && es[i].Some? && es[i].value.0 == key
    ensures key in Assign(es) ==>
      exists i :: 0 <= i < |es| && es[i] == Some((key, Assign(es)[key]))
        && forall j :: i < j < |es| ==> !(es[j].Some? && es[j].value.0 == key)
    decreases |es|
  {
    if es != [] {
      var init := es[..|es| - 1];
      var n := |es| - 1;
      AssignLastWins(init, key);
      if es[n].Some? && es[n].value.0 == key {
      } else {
        assert key in Assign(es) <==> key in Assign(init);
        if key in Assign(init) {
          var i :| 0 <= i < |init| && init[i] == Some((key, Assign(init)[key]))
            && forall j :: i < j < |init| ==> !(init[j].Some? && init[j].value.0 == key);
          assert es[i] == init[i];
          forall j | i < j < |es| ensures !(es[j].Some? && es[j].value.0 == key) {
            if j < n {
              assert es[j] == init[j];
            }
          }
        } else {
          forall i | 0 <= i < |es| ensures !(es[i].Some? && es[i].value.0 == key) {
            if i < n {
              assert es[i] == init[i];
            }
          }
        }
      }
    }
  }

  predicate Defines(line: string, key: string) {
    ParseLine(line).Some? && ParseLine(line).value.0 == key
  }

  /** A key is in the parsed map exactly when some line defines it, and it
      then holds the value of the last line that does. */
  lemma ParsedMapLastWins(lines: seq<string>, key: string)
    ensures key in ParsedMap(lines) <==> exists i :: 0 <= i < |lines| && Defines(lines[i], key)
    ensures key in ParsedMap(lines) ==>
      exists i :: 0 <= i < |lines| && ParseLine(lines[i]) == Some((key, ParsedMap(lines)[key]))
        && forall j :: i < j < |lines| ==> !Defines(lines[j], key)
  {
    var es := Entries(lines);
    AssignLastWins(es, key);
    forall i | 0 <= i < |lines| ensures Defines(lines[i], key) <==> es[i].Some? && es[i].value.0 == key {
      assert es[i] == ParseLine(lines[i]);
    }
    if key in ParsedMap(lines) {
      var i :| 0 <= i < |es| && es[i] == Some((key, Assign(es)[key]))
        && forall j :: i < j < |es| ==> !(es[j].Some? && es[j].value.0 == key);
      assert ParseLine(lines[i]) == Some((key, ParsedMap(lines)[key]));
    }
  }

  /** The empty key is never stored. */
  lemma ParsedMapHasNoEmptyKey(lines: seq<string>)
    ensures "" !in ParsedMap(lines)
  {
    var es := Entries(lines);
    AssignLastWins(es, "");
    forall i | 0 <= i < |es| && es[i].Some? ensures es[i].value.0 != "" {
      assert es[i] == ParseLine(lines[i]);
    }
  }

  // ---------------------------------------------------------------------
  // Where each setting comes from
  // ---------------------------------------------------------------------

  /** `defaultString`. */
  function DefaultString(val: string, def: string): (r: string)
    ensures r == def <==> val == "" || val == def
    ensures r == val <==> val != "" || def == ""
  {
    if val == "" then def else val
  }

  /** `os.Getenv`: an unset variable reads as "". */
  function Getenv(osEnv: map<string, string>, key: string): string {
    if key in osEnv then osEnv[key] else ""
  }

  /** A missing key of the file map reads as "". */
  function FileValue(file: map<string, string>, key: string): string {
    if key in file then file[key] else ""
  }

  /** The `getEnv` closure: a non-empty process variable wins, otherwise
      the file's value. */
  function GetEnv(osEnv: map<string, string>, file: map<string, string>, key: string): (v: string)
    ensures key in osEnv && osEnv[key] != "" ==> v == osEnv[key]
    ensures (key !in osEnv || osEnv[key] == "") && key in file ==> v == file[key]
    ensures v == "" <==> (key !in osEnv || osEnv[key] == "") && (key !in file || file[key] == "")
  {
    if Getenv(osEnv, key) != "" then Getenv(osEnv, key) else FileValue(file, key)
  }

  /** The text of every setting as `LoadFromFile` chooses it, before the
      numbers and durations are parsed. */
  datatype RawSettings = RawSettings(
    dbHost: string, dbPort: string, dbUser: string, dbPassword: string, dbName: string,
    dbSslMode: string, dbTimezone: string,
    dbMaxOpenConns: string, dbMaxIdleConns: string, dbConnMaxLifetime: string,
    requestTimeout: string, rateLimit: string, rateLimitPeriod: string,
    queueBuffSize: string, queueFlushPeriod: string)

  function Settings(osEnv: map<string, string>, file: map<string, string>): (s: RawSettings)
    // every setting with a default is present
    ensures s.dbTimezone != "" && s.dbMaxOpenConns != "" && s.dbMaxIdleConns != ""
            && s.dbConnMaxLifetime != "" && s.requestTimeout != "" && s.rateLimit != ""
            && s.rateLimitPeriod != "" && s.queueBuffSize != "" && s.queueFlushPeriod != ""
  {
    RawSettings(
      GetEnv(osEnv, file, "DB_HOST"),
      GetEnv(osEnv, file, "DB_PORT"),
      GetEnv(osEnv, file, "DB_USER"),
      GetEnv(osEnv, file, "DB_PASSWORD"),
      GetEnv(osEnv, file, "DB_NAME"),
      GetEnv(osEnv, file, "DB_SSLMODE"),
      DefaultString(GetEnv(osEnv, file, "DB_TIMEZONE"), "UTC"),
      DefaultString(FileValue(file, "DB_MAX_OPEN_CONNS"), "50"),
      DefaultString(FileValue(file, "DB_MAX_IDLE_CONNS"), "25"),
      DefaultString(FileValue(file, "DB_CONN_MAX_LIFETIME"), "15m"),
      DefaultString(FileValue(file, "REQUEST_TIMEOUT"), "30s"),
      DefaultString(FileValue(file, "RATE_LIMIT"), "100"),
      DefaultString(FileValue(file, "RATE_LIMIT_PERIOD"), "1m"),
      DefaultString(GetEnv(osEnv, file, "QUEUE_BUFF_SIZE"), "50"),
      DefaultString(GetEnv(osEnv, file, "QUEUE_FLUSH_PERIOD"), "100ms"))
  }

  /** The settings read through `getEnv`: a non-empty process variable
      wins; an empty or unset one falls back to the file; and where a
      default exists, it applies when both are empty. */
  lemma ProcessEnvPrecedence(osEnv: map<string, string>, file: map<string, string>)
    ensures var s := Settings(osEnv, file);
      && (Getenv(osEnv, "DB_HOST") != "" ==> s.dbHost == osEnv["DB_HOST"])
      && (Getenv(osEnv, "DB_HOST") == "" ==> s.dbHost == FileValue(file, "DB_HOST"))
      && (Getenv(osEnv, "DB_PORT") != "" ==> s.dbPort == osEnv["DB_PORT"])
      && (Getenv(osEnv, "DB_PORT") == "" ==> s.dbPort == FileValue(file, "DB_PORT"))
      && (Getenv(osEnv, "DB_USER") != "" ==> s.dbUser == osEnv["DB_USER"])
      && (Getenv(osEnv, "DB_USER") == "" ==> s.dbUser == FileValue(file, "DB_USER"))
      && (Getenv(osEnv, "DB_PASSWORD") != "" ==> s.dbPassword == osEnv["DB_PASSWORD"])
      && (Getenv(osEnv, "DB_PASSWORD") == "" ==> s.dbPassword == FileValue(file, "DB_PASSWORD"))
      && (Getenv(osEnv, "DB_NAME") != "" ==> s.dbName == osEnv["DB_NAME"])
      && (Getenv(osEnv, "DB_NAME") == "" ==> s.dbName == FileValue(file, "DB_NAME"))
      && (Getenv(osEnv, "DB_SSLMODE") != "" ==> s.dbSslMode == osEnv["DB_SSLMODE"])
      && (Getenv(osEnv, "DB_SSLMODE") == "" ==> s.dbSslMode == FileValue(file, "DB_SSLMODE"))
      && (Getenv(osEnv, "DB_TIMEZONE") != "" ==> s.dbTimezone == osEnv["DB_TIMEZONE"])
      && (Getenv(osEnv, "DB_TIMEZONE") == "" && FileValue(file, "DB_TIMEZONE") != "" ==>
            s.dbTimezone == file["DB_TIMEZONE"])
      && (Getenv(osEnv, "DB_TIMEZONE") == "" && FileValue(file, "DB_TIMEZONE") == "" ==> s.dbTimezone == "UTC")
      && (Getenv(osEnv, "QUEUE_BUFF_SIZE") != "" ==> s.queueBuffSize == osEnv["QUEUE_BUFF_SIZE"])
      && (Getenv(osEnv, "QUEUE_BUFF_SIZE") == "" && FileValue(file, "QUEUE_BUFF_SIZE") != "" ==>
            s.queueBuffSize == file["QUEUE_BUFF_SIZE"])
      && (Getenv(osEnv, "QUEUE_BUFF_SIZE") == "" && FileValue(file, "QUEUE_BUFF_SIZE") == "" ==> s.queueBuffSize == "50")
      && (Getenv(osEnv, "QUEUE_FLUSH_PERIOD") != "" ==> s.queueFlushPeriod == osEnv["QUEUE_FLUSH_PERIOD"])
      && (Getenv(osEnv, "QUEUE_FLUSH_PERIOD") == "" && FileValue(file, "QUEUE_FLUSH_PERIOD") != "" ==>
            s.queueFlushPeriod == file["QUEUE_FLUSH_PERIOD"])
      && (Getenv(osEnv, "QUEUE_FLUSH_PERIOD") == "" && FileValue(file, "QUEUE_FLUSH_PERIOD") == "" ==> s.queueFlushPeriod == "100ms")
  {
  }

  /** The pool, timeout and rate-limit settings are read from the file
      only: the process environment cannot change them. */
  lemma FileOnlySettings(os1: map<string, string>, os2: map<string, string>, file: map<string, string>)
    ensures var a, b := Settings(os1, file), Settings(os2, file);
      && a.dbMaxOpenConns == b.dbMaxOpenConns && a.dbMaxIdleConns == b.dbMaxIdleConns
      && a.dbConnMaxLifetime == b.dbConnMaxLifetime && a.requestTimeout == b.requestTimeout
      && a.rateLimit == b.rateLimit && a.rateLimitPeriod == b.rateLimitPeriod
  {
  }

  /** Each file-only setting is the file's value when that is non-empty,
      and its default otherwise. */
  lemma FileSettingsOrDefaults(osEnv: map<string, string>, file: map<string, string>)
    ensures var s := Settings(osEnv, file);
      && (FileValue(file, "DB_MAX_OPEN_CONNS") != "" ==> s.dbMaxOpenConns == file["DB_MAX_OPEN_CONNS"])
      && (FileValue(file, "DB_MAX_OPEN_CONNS") == "" ==> s.dbMaxOpenConns == "50")
      && (FileValue(file, "DB_MAX_IDLE_CONNS") != "" ==> s.dbMaxIdleConns == file["DB_MAX_IDLE_CONNS"])
      && (FileValue(file, "DB_MAX_IDLE_CONNS") == "" ==> s.dbMaxIdleConns == "25")
      && (FileValue(file, "DB_CONN_MAX_LIFETIME") != "" ==> s.dbConnMaxLifetime == file["DB_CONN_MAX_LIFETIME"])
      && (FileValue(file, "DB_CONN_MAX_LIFETIME") == "" ==> s.dbConnMaxLifetime == "15m")
      && (FileValue(file, "REQUEST_TIMEOUT") != "" ==> s.requestTimeout == file["REQUEST_TIMEOUT"])
      && (FileValue(file, "REQUEST_TIMEOUT") == "" ==> s.requestTimeout == "30s")
      && (FileValue(file, "RATE_LIMIT") != "" ==> s.rateLimit == file["RATE_LIMIT"])
      && (FileValue(file, "RATE_LIMIT") == "" ==> s.rateLimit == "100")
      && (FileValue(file, "RATE_LIMIT_PERIOD") != "" ==> s.rateLimitPeriod == file["RATE_LIMIT_PERIOD"])
      && (FileValue(file, "RATE_LIMIT_PERIOD") == "" ==> s.rateLimitPeriod == "1m")
  {
  }

  /** With no process variables and an empty file, every default applies. */
  lemma Defaults()
    ensures Settings(map[], map[])
      == RawSettings("", "", "", "", "", "", "UTC", "50", "25", "15m", "30s", "100", "1m", "50", "100ms")
  {
  }

  // ---------------------------------------------------------------------
  // Validation
  // ---------------------------------------------------------------------

  /** `strings.Join`. */
  function Join(parts: seq<string>, sep: string): (r: string)
    // the first part opens the text and the last part closes it
    ensures parts != [] ==> |parts[0]| <= |r| && r[..|parts[0]|] == parts[0]
    ensures parts != [] ==> |parts[|parts| - 1]| <= |r| && r[|r| - |parts[|parts| - 1]|..] == parts[|parts| - 1]
    // the separator comes right after the first part
    ensures |parts| >= 2 ==> |parts[0]| + |sep| <= |r| && r[|parts[0]|..|parts[0]| + |sep|] == sep
    decreases |parts|
  {
    if parts == [] then ""
    else if |parts| == 1 then parts[0]
    else Join(parts[..|parts| - 1], sep) + sep + parts[|parts| - 1]
  }

  /** The five connection settings `Validate` requires. */
  datatype RequiredVar = DbHost | DbPort | DbUser | DbPassword | DbName
  {
    function Name(): string {
      match this
      case DbHost => "DB_HOST"
      case DbPort => "DB_PORT"
      case DbUser => "DB_USER"
      case DbPassword => "DB_PASSWORD"
      case DbName => "DB_NAME"
    }
  }

  function Names(vars: seq<RequiredVar>): seq<string>
    decreases |vars|
  {
    if vars == [] then [] else Names(vars[..|vars| - 1]) + [vars[|vars| - 1].Name()]
  }

  datatype ConfigError =
    | MissingVars(vars: seq<RequiredVar>)
    | MaxOpenConnsNotPositive
    | MaxIdleConnsNegative
    | QueueBuffSizeNotPositive
  {
    function Message(): string {
      match this
      case MissingVars(vars) => "missing required env vars: " + Join(Names(vars), ", ")
      case MaxOpenConnsNotPositive => "DB_MAX_OPEN_CONNS must be > 0"
      case MaxIdleConnsNegative => "DB_MAX_IDLE_CONNS must be >= 0"
      case QueueBuffSizeNotPositive => "QUEUE_BUFF_SIZE must be > 0"
    }
  }

  /** `Env`, with durations as integer nanoseconds. */
  datatype Env = Env(
    dbHost: string, dbPort: string, dbUser: string, dbPassword: string, dbName: string,
    dbSslMode: string, dbTimezone: string,
    dbMaxOpenConns: int, dbMaxIdleConns: int, dbConnMaxLifetime: int,
    requestTimeout: int, rateLimit: int, rateLimitPeriod: int,
    queueBuffSize: int, queueFlushPeriod: int)
  {
    /** The value of a required setting. */
    function Value(v: RequiredVar): string {
      match v
      case DbHost => dbHost
      case DbPort => dbPort
      case DbUser => dbUser
      case DbPassword => dbPassword
      case DbName => dbName
    }

    /** The required settings left empty, in the order they are checked. */
    function Missing(): (r: seq<RequiredVar>)
      ensures |r| <= 5
      ensures r == [] <==> dbHost != "" && dbPort != "" && dbUser != "" && dbPassword != "" && dbName != ""
    {
      [] + (if dbHost == "" then [DbHost] else []) + (if dbPort == "" then [DbPort] else [])
      + (if dbUser == "" then [DbUser] else []) + (if dbPassword == "" then [DbPassword] else [])
      + (if dbName == "" then [DbName] else [])
    }

    /** `Validate`: every missing connection setting is reported in one
        error, before any numeric check; then the pool sizes and the queue
        buffer size are checked in that order. */
    method Validate() returns (err: Option<ConfigError>)
      ensures err == None <==>
        Missing() == [] && dbMaxOpenConns > 0 && dbMaxIdleConns >= 0 && queueBuffSize > 0
      ensures Missing() != [] ==> err == Some(MissingVars(Missing()))
      ensures Missing() == [] && dbMaxOpenConns <= 0 ==> err == Some(MaxOpenConnsNotPositive)
      ensures Missing() == [] && dbMaxOpenConns > 0 && dbMaxIdleConns < 0 ==>
        err == Some(MaxIdleConnsNegative)
      ensures Missing() == [] && dbMaxOpenConns > 0 && dbMaxIdleConns >= 0 && queueBuffSize <= 0 ==>
        err == Some(QueueBuffSizeNotPositive)
    {
      var missing: seq<RequiredVar> := [];
      // append(missing, name) for each empty setting, in this order
      missing := missing + (if dbHost == "" then [DbHost] else []);
      missing := missing + (if dbPort == "" then [DbPort] else []);
      missing := missing + (if dbUser == "" then [DbUser] else []);
      missing := missing + (if dbPassword == "" then [DbPassword] else []);
      missing := missing + (if dbName == "" then [DbName] else []);
      assert missing == Missing();

      if |missing| > 0 {
        return Some(MissingVars(missing));
      }
      if dbMaxOpenConns <= 0 {
        return Some(MaxOpenConnsNotPositive);
      }
      if dbMaxIdleConns < 0 {
        return Some(MaxIdleConnsNegative);
      }
      if queueBuffSize <= 0 {
        return Some(QueueBuffSizeNotPositive);
      }
      return None;
    }
  }

  /** The error lists every empty required setting and nothing else. */
  lemma MissingExactly(e: Env)
    ensures forall v :: v in e.Missing() <==> e.Value(v) == ""
  {
  }

  /** The list follows the order of the checks: an empty host always comes
      first and an empty database name always comes last. */
  lemma MissingOrder(e: Env)
    ensures |e.Missing()| <= 5
    ensures e.dbHost == "" ==> e.Missing()[0] == DbHost
    ensures e.dbName == "" ==> e.Missing()[|e.Missing()| - 1] == DbName
  {
  }
}
