/** The `config.env` parser: `parsEnvEntry` and `ParseRawConfiguration` of `utils/utils.go`. */
module Config {
  import opened Wrappers
  import opened Bindings

  // ---------- Strings ----------

  /** White space as `strings.TrimSpace` takes it. */
  predicate IsSpace(c: char) {
    var n := c as int;
    9 <= n <= 13 || n == 0x20 || n == 0x85 || n == 0xA0 || n == 0x1680 || 0x2000 <= n <= 0x200A ||
    n == 0x2028 || n == 0x2029 || n == 0x202F || n == 0x205F || n == 0x3000
  }

  function TrimLeft(s: string): (t: string)
    ensures t == "" || !IsSpace(t[0])
  {
    if s != "" && IsSpace(s[0]) then TrimLeft(s[1..]) else s
  }

  function TrimRight(s: string): (t: string)
    ensures t <= s && (t == "" || !IsSpace(t[|t| - 1]))
  {
    if s != "" && IsSpace(s[|s| - 1]) then TrimRight(s[..|s| - 1]) else s
  }

  function TrimSpace(s: string): (t: string)
    ensures t == "" || !IsSpace(t[0])
  {
    TrimRight(TrimLeft(s))
  }

  /** The first position of `c` from `i` on, or the length. */
  function IndexFrom(s: string, c: char, i: nat): (k: nat)
    requires i <= |s|
    ensures i <= k <= |s| && (k < |s| ==> s[k] == c)
    ensures forall j :: i <= j < k ==> s[j] != c
    decreases |s| - i
  {
    if i == |s| || s[i] == c then i else IndexFrom(s, c, i + 1)
  }

  function Index(s: string, c: char): (k: nat)
    ensures k <= |s| && (k < |s| ==> s[k] == c)
    ensures forall j :: 0 <= j < k ==> s[j] != c
  {
    IndexFrom(s, c, 0)
  }

  predicate Lacks(s: string, c: char) {
    forall i :: 0 <= i < |s| ==> s[i] != c
  }

  // ---------- One line ----------

  const EXPORT := "export"

  function StripExport(s: string): string {
    if EXPORT <= s then s[|EXPORT|..] else s
  }

  function Unquote(v: string): string {
    if |v| >= 2 && (v[0] == '"' || v[0] == '\'') && v[|v| - 1] == v[0] then v[1..|v| - 1] else v
  }

  /** Split at the first equals sign. */
  function SplitEntry(body: string): Entry {
    var k := Index(body, '=');
    if k == |body| then Malformed else Bind(body[..k], Unquote(body[k + 1..]))
  }

  function ParseEntry(line: string): Entry {
    var entry := TrimSpace(line);
    if entry == "" || entry[0] == '#' then Skip
    else SplitEntry(TrimSpace(StripExport(entry)))
  }

  // ---------- The scanner ----------

  /** A line of this many characters or more ends the scan. */
  const MAX_TOKEN := 65536

  /** The lines of a text, without their newlines; nothing follows a final newline. */
  function RawLines(text: string): seq<string> {
    if text == "" then []
    else
      var k := Index(text, '\n');
      if k == |text| then [text] else [text[..k]] + RawLines(text[k + 1..])
  }

  predicate Fits(line: string) {
    |line| < MAX_TOKEN
  }

  predicate AllFit(lines: seq<string>) {
    forall i :: 0 <= i < |lines| ==> Fits(lines[i])
  }

  /** The position of the first line that is too long, or the number of lines. */
  function FirstLong(lines: seq<string>): (k: nat)
    ensures k <= |lines| && (k < |lines| ==> !Fits(lines[k]))
    ensures forall i :: 0 <= i < k ==> Fits(lines[i])
  {
    if lines == [] || !Fits(lines[0]) then 0 else 1 + FirstLong(lines[1..])
  }

  function Scanned(lines: seq<string>): seq<string> {
    lines[..FirstLong(lines)]
  }

  function DropCR(line: string): string {
    if line != "" && line[|line| - 1] == '\r' then line[..|line| - 1] else line
  }

  function Read(line: string): Entry {
    ParseEntry(DropCR(line))
  }

  function ReadAll(lines: seq<string>): seq<Entry> {
    seq(|lines|, i requires 0 <= i < |lines| => Read(lines[i]))
  }

  // ---------- The map ----------

  /** The key a credential also sets. */
  function Alias(key: string): Option<string> {
    if key == "MINIO_ROOT_USER" || key == "MINIO_ACCESS_KEY" then Some("accesskey")
    else if key == "MINIO_ROOT_PASSWORD" || key == "MINIO_SECRET_KEY" then Some("secretkey")
    else None
  }

  function Parse(text: string): Configuration {
    Fold(Alias, map[], ReadAll(Scanned(RawLines(text))))
  }

  method ParseRawConfiguration(configuration: Option<string>) returns (config: Configuration)
    ensures config == if configuration.None? then map[] else Parse(configuration.value)
  {
    config := map[];
    if configuration.Some? {
      var rest := configuration.value;
      while rest != ""
        invariant Fold(Alias, config, ReadAll(Scanned(RawLines(rest)))) == Parse(configuration.value)
        decreases |rest|
      {
        var k := Index(rest, '\n');
        var line := rest[..k];
        ScanStep(config, rest);
        if |line| >= MAX_TOKEN {
          return;
        }
        rest := if k == |rest| then "" else rest[k + 1..];
        var entry := Read(line);
        if entry.Bind? {
          config := SetCredential(config, entry.key, entry.value);
        }
      }
    }
  }

  /** The assignments of one parsed line. */
  method SetCredential(config: Configuration, key: string, value: string) returns (r: Configuration)
    ensures r == Put(Alias, config, key, value)
  {
    r := config[key := value];
    if key == "MINIO_ROOT_USER" || key == "MINIO_ACCESS_KEY" {
      r := r["accesskey" := r[key]];
    } else if key == "MINIO_ROOT_PASSWORD" || key == "MINIO_SECRET_KEY" {
      r := r["secretkey" := r[key]];
    }
  }

  lemma FirstRawLine(rest: string)
    requires rest != ""
    ensures var k := Index(rest, '\n');
            RawLines(rest) == [rest[..k]] + RawLines(if k == |rest| then "" else rest[k + 1..])
  {
    var k := Index(rest, '\n');
    if k == |rest| {
      OnlyLine(rest);
      assert rest[..k] == rest;
    } else {
      LineThenRest(rest, k);
    }
  }

  lemma OnlyLine(text: string)
    requires text != "" && Index(text, '\n') == |text|
    ensures RawLines(text) == [text]
  {
  }

  lemma ScannedFirst(line: string, lines: seq<string>)
    ensures Scanned([line] + lines) == if Fits(line) then [line] + Scanned(lines) else []
  {
    assert ([line] + lines)[1..] == lines;
  }

  /** One turn of the scanner. */
  lemma ScanStep(config: Configuration, rest: string)
    requires rest != ""
    ensures var k := Index(rest, '\n');
            var line, after := rest[..k], if k == |rest| then "" else rest[k + 1..];
            Fold(Alias, config, ReadAll(Scanned(RawLines(rest)))) ==
              if Fits(line) then Fold(Alias, Take(Alias, config, Read(line)), ReadAll(Scanned(RawLines(after))))
              else config
  {
    var k := Index(rest, '\n');
    var line, after := rest[..k], if k == |rest| then "" else rest[k + 1..];
    FirstRawLine(rest);
    ScanFirst(config, line, RawLines(after));
  }

  lemma ScanFirst(config: Configuration, line: string, lines: seq<string>)
    ensures Fold(Alias, config, ReadAll(Scanned([line] + lines))) ==
              if Fits(line) then Fold(Alias, Take(Alias, config, Read(line)), ReadAll(Scanned(lines))) else config
  {
    ScannedFirst(line, lines);
    if Fits(line) {
      ReadAllAppend([line], Scanned(lines));
      FoldFirst(Alias, config, Read(line), ReadAll(Scanned(lines)));
    }
  }

  lemma ReadAllAppend(a: seq<string>, b: seq<string>)
    ensures ReadAll(a + b) == ReadAll(a) + ReadAll(b)
    ensures |a| == 1 ==> ReadAll(a) == [Read(a[0])]
  {
  }

  // ---------- The last line wins ----------

  /** Every key of the result holds the value of the last scanned line that gives it one, and there are no other
      keys. */
  lemma LastLineWins(text: string, k: string)
    ensures Lookup(Parse(text), k) == LastGiven(Alias, ReadAll(Scanned(RawLines(text))), k)
  {
    FoldLookup(Alias, map[], ReadAll(Scanned(RawLines(text))), k);
  }

  /** The credentials are given by three keys each; every other key only by its own lines. */
  lemma WhoGives(e: Entry, k: string)
    ensures Gives(Alias, e, k).Some? <==>
            && e.Bind?
            && if k == "accesskey" then e.key in ["MINIO_ROOT_USER", "MINIO_ACCESS_KEY", "accesskey"]
               else if k == "secretkey" then e.key in ["MINIO_ROOT_PASSWORD", "MINIO_SECRET_KEY", "secretkey"]
               else e.key == k
  {
  }

  // ---------- Concatenation ----------

  predicate Terminated(text: string) {
    text == "" || text[|text| - 1] == '\n'
  }

  lemma OneAndTwo(line: string, x: seq<string>, y: seq<string>)
    ensures [line] + (x + y) == [line] + x + y
  {
  }

  lemma IndexAppend(a: string, b: string, c: char)
    requires Index(a, c) < |a|
    ensures Index(a + b, c) == Index(a, c)
  {
    assert (a + b)[Index(a, c)] == a[Index(a, c)];
    assert forall j :: 0 <= j < |a| ==> (a + b)[j] == a[j];
  }

  lemma LineThenRest(text: string, k: nat)
    requires k < |text| && Index(text, '\n') == k
    ensures RawLines(text) == [text[..k]] + RawLines(text[k + 1..])
  {
  }

  lemma SplitAppended(a: string, b: string, k: nat)
    requires k < |a|
    ensures (a + b)[..k] == a[..k] && (a + b)[k + 1..] == a[k + 1..] + b
    ensures Terminated(a) ==> Terminated(a[k + 1..])
  {
  }

  lemma FirstOfAppended(a: string, b: string)
    requires Index(a, '\n') < |a|
    ensures var k := Index(a, '\n');
            RawLines(a + b) == [a[..k]] + RawLines(a[k + 1..] + b)
  {
    var k := Index(a, '\n');
    IndexAppend(a, b, '\n');
    LineThenRest(a + b, k);
    SplitAppended(a, b, k);
  }

  lemma {:induction false} RawLinesAppend(a: string, b: string)
    requires Terminated(a)
    ensures RawLines(a + b) == RawLines(a) + RawLines(b)
    decreases |a|
  {
    if a == "" {
      assert a + b == b;
    } else {
      var k := Index(a, '\n');
      FirstOfAppended(a, b);
      LineThenRest(a, k);
      SplitAppended(a, b, k);
      RawLinesAppend(a[k + 1..], b);
      OneAndTwo(a[..k], RawLines(a[k + 1..]), RawLines(b));
    }
  }

  lemma ScannedAppend(x: seq<string>, y: seq<string>)
    ensures Scanned(x + y) == if AllFit(x) then x + Scanned(y) else Scanned(x)
    ensures AllFit(x) ==> Scanned(x) == x
  {
    var k := FirstLong(x + y);
    assert forall i :: 0 <= i < |x| ==> (x + y)[i] == x[i];
    assert forall i :: 0 <= i < |y| ==> (x + y)[|x| + i] == y[i];
    if AllFit(x) {
      assert k >= |x| && k - |x| == FirstLong(y);
    } else {
      assert k == FirstLong(x);
    }
  }

  /** Appending to a text that ends in a newline: what follows overrides what came before, unless a line before
      was too long, which hides all that follows. */
  lemma ParseAppend(a: string, b: string)
    requires Terminated(a)
    ensures Parse(a + b) == if AllFit(RawLines(a)) then Parse(a) + Parse(b) else Parse(a)
  {
    var x, y := RawLines(a), RawLines(b);
    RawLinesAppend(a, b);
    ScannedAppend(x, y);
    if AllFit(x) {
      ReadAllAppend(x, Scanned(y));
      FoldAppend(Alias, map[], ReadAll(x), ReadAll(Scanned(y)));
      FoldOverrides(Alias, Parse(a), ReadAll(Scanned(y)));
    }
  }

  lemma LineAlone(line: string)
    requires Lacks(line, '\n')
    ensures RawLines(line + "\n") == [line]
    ensures Fits(line) ==> Parse(line + "\n") == Take(Alias, map[], Read(line))
  {
    var l := line + "\n";
    assert l[|line|] == '\n';
    assert Index(l, '\n') == |line| by {
      assert forall i :: 0 <= i < |line| ==> l[i] == line[i];
    }
    assert l[..|line|] == line && l[|line| + 1..] == "";
    ScanStep(map[], l);
    assert ReadAll(Scanned(RawLines(""))) == [];
  }

  /** One more line after a text that ends in a newline. */
  lemma ParseOneMore(a: string, line: string)
    requires Terminated(a) && Lacks(line, '\n') && Fits(line)
    ensures AllFit(RawLines(a + (line + "\n"))) <==> AllFit(RawLines(a))
    ensures Terminated(a + (line + "\n"))
    ensures Parse(a + (line + "\n")) ==
            if AllFit(RawLines(a)) then Parse(a) + Take(Alias, map[], Read(line)) else Parse(a)
  {
    var l := line + "\n";
    LineAlone(line);
    ParseAppend(a, l);
    RawLinesAppend(a, l);
    var x, y := RawLines(a), RawLines(a + l);
    assert y == x + [line];
    if AllFit(y) {
      assert forall i :: 0 <= i < |x| ==> y[i] == x[i];
    }
  }

  lemma IdleTail(a: string, line: string)
    requires Terminated(a) && Lacks(line, '\n') && Fits(line) && !Read(line).Bind?
    ensures Terminated(a + (line + "\n")) && Parse(a + (line + "\n")) == Parse(a)
    ensures AllFit(RawLines(a + (line + "\n"))) <==> AllFit(RawLines(a))
  {
    ParseOneMore(a, line);
    TakeIdle(Read(line));
    NothingMore(Parse(a));
  }

  lemma NothingMore(c: Configuration)
    ensures c + map[] == c
  {
  }

  lemma TakeIdle(e: Entry)
    requires !e.Bind?
    ensures Take(Alias, map[], e) == map[]
  {
  }

  /** Blank, comment and malformed lines can be put in or taken out anywhere. */
  lemma IdleLine(a: string, line: string, b: string)
    requires Terminated(a) && Lacks(line, '\n') && Fits(line)
    requires !Read(line).Bind?
    ensures Parse(a + (line + "\n") + b) == Parse(a + b)
  {
    IdleTail(a, line);
    ParseAppend(a + (line + "\n"), b);
    ParseAppend(a, b);
  }

  // ---------- A line by its text ----------

  predicate AllSpace(s: string) {
    forall i :: 0 <= i < |s| ==> IsSpace(s[i])
  }

  /** Not empty, with no white space at either end. */
  predicate Tight(s: string) {
    s != "" && !IsSpace(s[0]) && !IsSpace(s[|s| - 1])
  }

  lemma {:induction false} TrimLeftSpaces(l: string, s: string)
    requires AllSpace(l)
    ensures TrimLeft(l + s) == TrimLeft(s)
  {
    if l == "" {
      assert l + s == s;
    } else {
      assert (l + s)[0] == l[0] && (l + s)[1..] == l[1..] + s;
      TrimLeftSpaces(l[1..], s);
    }
  }

  lemma {:induction false} TrimRightSpaces(s: string, r: string)
    requires AllSpace(r)
    ensures TrimRight(s + r) == TrimRight(s)
  {
    if r == "" {
      assert s + r == s;
    } else {
      var n := |r| - 1;
      assert (s + r)[|s + r| - 1] == r[n] && (s + r)[..|s + r| - 1] == s + r[..n];
      TrimRightSpaces(s, r[..n]);
    }
  }

  /** White space around a text goes. */
  lemma TrimAround(left: string, core: string, right: string)
    requires AllSpace(left) && AllSpace(right) && (core == "" || Tight(core))
    ensures TrimSpace(left + core + right) == core
  {
    assert left + core + right == left + (core + right);
    TrimLeftSpaces(left, core + right);
    if core == "" {
      assert core + right == right + "";
      TrimLeftSpaces(right, "");
    } else {
      assert (core + right)[0] == core[0];
      TrimRightSpaces(core, right);
    }
  }

  lemma {:induction false} TrimLeftBefore(s: string, c: char)
    requires IsSpace(c)
    ensures TrimLeft(s + [c]) == (if AllSpace(s) then "" else TrimLeft(s) + [c])
    ensures AllSpace(s) ==> TrimLeft(s) == ""
  {
    if s == "" {
      assert s + [c] == [c] && [c][1..] == "";
    } else {
      assert (s + [c])[0] == s[0] && (s + [c])[1..] == s[1..] + [c];
      TrimLeftBefore(s[1..], c);
      assert AllSpace(s) <==> IsSpace(s[0]) && AllSpace(s[1..]);
    }
  }

  /** A carriage return at the end of a line changes nothing. */
  lemma ReadIgnoresCR(line: string)
    ensures Read(line) == ParseEntry(line)
  {
    if line != "" && line[|line| - 1] == '\r' {
      var s := line[..|line| - 1];
      assert line == s + ['\r'] && AllSpace(['\r']);
      TrimLeftBefore(s, '\r');
      TrimRightSpaces(TrimLeft(s), ['\r']);
    }
  }

  lemma TrimmedEntry(left: string, core: string, right: string)
    requires AllSpace(left) && AllSpace(right) && (core == "" || Tight(core))
    ensures Read(left + core + right) ==
            if core == "" || core[0] == '#' then Skip else SplitEntry(TrimSpace(StripExport(core)))
  {
    ReadIgnoresCR(left + core + right);
    TrimAround(left, core, right);
  }

  /** Blank lines and comments are skipped, whatever stands in them. */
  lemma SkippedLine(left: string, core: string, right: string)
    requires AllSpace(left) && AllSpace(right)
    requires core == "" || (Tight(core) && core[0] == '#')
    ensures Read(left + core + right) == Skip
  {
    TrimmedEntry(left, core, right);
  }

  lemma {:induction false} TrimKeepsOut(s: string, c: char)
    requires Lacks(s, c)
    ensures Index(TrimSpace(s), c) == |TrimSpace(s)|
  {
    TrimLacks(s, c);
  }

  /** Any other line without an equals sign is malformed. */
  lemma MalformedLine(left: string, core: string, right: string)
    requires AllSpace(left) && AllSpace(right)
    requires Tight(core) && core[0] != '#' && Lacks(core, '=')
    ensures Read(left + core + right) == Malformed
  {
    TrimmedEntry(left, core, right);
    assert Lacks(StripExport(core), '=');
    TrimKeepsOut(StripExport(core), '=');
  }

  /** What is bound for a value: the inside of matching quotes, and otherwise the value as it stands. */
  ghost predicate Unquoted(value: string, bound: string) {
    && (forall inner :: value == "\"" + inner + "\"" ==> bound == inner)
    && (forall inner :: value == "'" + inner + "'" ==> bound == inner)
    && ((forall inner :: value != "\"" + inner + "\"" && value != "'" + inner + "'") ==> bound == value)
  }

  lemma UnquoteMeans(value: string)
    ensures Unquoted(value, Unquote(value))
  {
    forall inner | value == "\"" + inner + "\"" ensures Unquote(value) == inner {
      assert value[1..|value| - 1] == inner;
    }
    forall inner | value == "'" + inner + "'" ensures Unquote(value) == inner {
      assert value[1..|value| - 1] == inner;
    }
    if Unquote(value) != value {
      var inner := value[1..|value| - 1];
      assert value == "\"" + inner + "\"" || value == "'" + inner + "'";
    }
  }

  /** The text of an assignment: a key, an equals sign and a value. */
  function Assignment(key: string, value: string): string {
    key + ("=" + value)
  }

  lemma AssignmentTight(key: string, value: string)
    requires KeyShape(key) && (value == "" || !IsSpace(value[|value| - 1]))
    ensures Tight(Assignment(key, value))
  {
    var body := Assignment(key, value);
    assert body[0] == (if key == "" then '=' else key[0]);
    assert body[|body| - 1] == (if value == "" then '=' else value[|value| - 1]);
  }

  lemma ExportInKey(key: string, value: string)
    requires Lacks(key, '=') && EXPORT <= Assignment(key, value)
    ensures EXPORT <= key
  {
    var body := Assignment(key, value);
    assert body[|key|] == '=';
    assert forall i :: 0 <= i < |EXPORT| ==> EXPORT[i] == body[i];
    assert forall i :: 0 <= i < |EXPORT| ==> EXPORT[i] != '=';
  }

  /** An assignment without the prefix: any key of the right shape that does not look like a comment or the prefix. */
  lemma PlainLineBinds(left: string, key: string, value: string, right: string)
    requires AllSpace(left) && AllSpace(right)
    requires KeyShape(key) && !("#" <= key) && !(EXPORT <= key)
    requires value == "" || !IsSpace(value[|value| - 1])
    ensures var e := Read(left + Assignment(key, value) + right);
            e.Bind? && e.key == key && Unquoted(value, e.value)
  {
    var body := Assignment(key, value);
    AssignmentTight(key, value);
    TrimmedEntry(left, body, right);
    if EXPORT <= body {
      ExportInKey(key, value);
    }
    assert key != "" ==> key[0] != '#';
    NothingToTrim(body);
    SplitAtKey(key, value);
    UnquoteMeans(value);
  }

  /** An assignment with the prefix, with or without white space after it: any key of the right shape. */
  lemma ExportedLineBinds(left: string, gap: string, key: string, value: string, right: string)
    requires AllSpace(left) && AllSpace(gap) && AllSpace(right)
    requires KeyShape(key) && (value == "" || !IsSpace(value[|value| - 1]))
    ensures var e := Read(left + ("export" + (gap + Assignment(key, value))) + right);
            e.Bind? && e.key == key && Unquoted(value, e.value)
  {
    var body := Assignment(key, value);
    var core := EXPORT + (gap + body);
    AssignmentTight(key, value);
    assert core[|core| - 1] == body[|body| - 1] && core[0] == 'e';
    TrimmedEntry(left, core, right);
    Exported(gap + body);
    assert gap + body == gap + body + "";
    TrimAround(gap, body, "");
    SplitAtKey(key, value);
    UnquoteMeans(value);
  }

  /** What one binding sets. */
  lemma PutSets(config: Configuration, key: string, v: string)
    ensures var c := config + Put(Alias, map[], key, v);
            && Lookup(c, key) == Some(v)
            && (Alias(key).Some? ==> Lookup(c, Alias(key).value) == Some(v))
  {
  }

  lemma WhoseCredential(key: string)
    ensures key in ["MINIO_ROOT_USER", "MINIO_ACCESS_KEY"] ==> Alias(key) == Some("accesskey")
    ensures key in ["MINIO_ROOT_PASSWORD", "MINIO_SECRET_KEY"] ==> Alias(key) == Some("secretkey")
  {
  }

  /** A line that binds `key` to `v` gives it, and its credential, that value, whatever came before it. */
  lemma LineSets(a: string, line: string, key: string, v: string)
    requires Terminated(a) && AllFit(RawLines(a)) && Lacks(line, '\n') && Fits(line)
    requires Read(line) == Bind(key, v)
    ensures var config := Parse(a + (line + "\n"));
            && Lookup(config, key) == Some(v)
            && (key in ["MINIO_ROOT_USER", "MINIO_ACCESS_KEY"] ==> Lookup(config, "accesskey") == Some(v))
            && (key in ["MINIO_ROOT_PASSWORD", "MINIO_SECRET_KEY"] ==> Lookup(config, "secretkey") == Some(v))
  {
    ParseOneMore(a, line);
    BoundTaken(key, v);
    PutSets(Parse(a), key, v);
    WhoseCredential(key);
  }

  lemma BoundTaken(key: string, v: string)
    ensures Take(Alias, map[], Bind(key, v)) == Put(Alias, map[], key, v)
  {
  }

  /** An assignment without the prefix at the end of a text sets its key, and its credential. */
  lemma PlainLineSets(a: string, left: string, key: string, value: string, right: string)
    requires Terminated(a) && AllFit(RawLines(a)) && AllSpace(left) && AllSpace(right)
    requires KeyShape(key) && !("#" <= key) && !(EXPORT <= key)
    requires value == "" || !IsSpace(value[|value| - 1])
    requires Lacks(left + Assignment(key, value) + right, '\n') && |left + Assignment(key, value) + right| <= 65535
    ensures var config := Parse(a + (left + Assignment(key, value) + right + "\n"));
            && key in config && Unquoted(value, config[key])
            && (key in ["MINIO_ROOT_USER", "MINIO_ACCESS_KEY"] ==> Lookup(config, "accesskey") == Some(config[key]))
            && (key in ["MINIO_ROOT_PASSWORD", "MINIO_SECRET_KEY"] ==> Lookup(config, "secretkey") == Some(config[key]))
  {
    var line := left + Assignment(key, value) + right;
    PlainLineBinds(left, key, value, right);
    LineSets(a, line, key, Read(line).value);
  }

  lemma RootUserShape()
    ensures KeyShape("MINIO_ROOT_USER") && !("#" <= "MINIO_ROOT_USER") && !(EXPORT <= "MINIO_ROOT_USER")
  {
    var key := "MINIO_ROOT_USER";
    assert key[0] == 'M' && "#"[0] == '#' && EXPORT[0] == 'e';
  }

  /** The plainest line there is: an unquoted root user becomes the access key. */
  lemma RootUserLine(v: string)
    requires Lacks(v, '\n') && |Assignment("MINIO_ROOT_USER", v)| <= 65535 && (v == "" || !IsSpace(v[|v| - 1]))
    requires v == "" || (v[0] != '"' && v[0] != '\'')
    ensures Lookup(Parse(Assignment("MINIO_ROOT_USER", v) + "\n"), "MINIO_ROOT_USER") == Some(v)
    ensures Lookup(Parse(Assignment("MINIO_ROOT_USER", v) + "\n"), "accesskey") == Some(v)
  {
    RootUserShape();
    UnquotedLine("MINIO_ROOT_USER", v);
  }

  lemma UnquotedLine(key: string, v: string)
    requires KeyShape(key) && !("#" <= key) && !(EXPORT <= key) && Lacks(key, '\n')
    requires Lacks(v, '\n') && |Assignment(key, v)| <= 65535 && (v == "" || !IsSpace(v[|v| - 1]))
    requires v == "" || (v[0] != '"' && v[0] != '\'')
    ensures var config := Parse(Assignment(key, v) + "\n");
            && Lookup(config, key) == Some(v)
            && (key in ["MINIO_ROOT_USER", "MINIO_ACCESS_KEY"] ==> Lookup(config, "accesskey") == Some(v))
  {
    var line := Assignment(key, v);
    assert "" + line + "" == line && "" + (line + "\n") == line + "\n";
    LacksAppend("=", v, '\n');
    LacksAppend(key, "=" + v, '\n');
    assert RawLines("") == [];
    PlainLineSets("", "", key, v, "");
    forall inner ensures v != "\"" + inner + "\"" && v != "'" + inner + "'" {
      assert ("\"" + inner + "\"")[0] == '"' && ("'" + inner + "'")[0] == '\'';
    }
  }

  /** The scanner takes lines of up to 65535 characters; a longer one hides itself and all that follows. */
  lemma LongLineHides(a: string, line: string, b: string)
    requires Terminated(a) && Lacks(line, '\n') && |line| >= 65536
    ensures Parse(a + (line + "\n") + b) == Parse(a)
  {
    LineAlone(line);
    RawLinesAppend(a, line + "\n");
    ParseAppend(a, line + "\n");
    var x, y := RawLines(a), RawLines(a + (line + "\n"));
    assert y == x + [line] && y[|x|] == line;
    assert !AllFit(y) && Terminated(a + (line + "\n"));
    ParseAppend(a + (line + "\n"), b);
    ScannedAppend(x, [line]);
    if AllFit(x) {
      ScannedFirst(line, []);
      assert [line] + [] == [line];
      assert Parse(line + "\n") == map[];
      assert Parse(a) + map[] == Parse(a);
    }
  }

  // ---------- Printing and reading back ----------

  function Quoted(v: string): string {
    "\"" + v + "\""
  }

  function PrintLine(s: Setting): string {
    EXPORT + (" " + (s.key + ("=" + Quoted(s.value))))
  }

  function Print(settings: seq<Setting>): string {
    if settings == [] then ""
    else Print(settings[..|settings| - 1]) + (PrintLine(settings[|settings| - 1]) + "\n")
  }

  /** Keys that survive: no equals sign, no leading white space. */
  predicate KeyShape(k: string) {
    Lacks(k, '=') && (k == "" || !IsSpace(k[0]))
  }

  lemma SplitKeyShape(body: string)
    requires body == "" || !IsSpace(body[0])
    requires SplitEntry(body).Bind?
    ensures KeyShape(SplitEntry(body).key)
  {
  }

  /** Every key a line binds has that shape. */
  lemma BoundKeyShape(line: string)
    requires ParseEntry(line).Bind?
    ensures KeyShape(ParseEntry(line).key)
  {
    SplitKeyShape(TrimSpace(StripExport(TrimSpace(line))));
  }

  lemma NothingToTrim(s: string)
    requires s != "" && !IsSpace(s[0]) && !IsSpace(s[|s| - 1])
    ensures TrimSpace(s) == s
  {
  }

  lemma TrimOneSpace(s: string)
    requires s != "" && !IsSpace(s[0]) && !IsSpace(s[|s| - 1])
    ensures TrimSpace(" " + s) == s
  {
    assert (" " + s)[1..] == s;
    assert TrimLeft(" " + s) == TrimLeft(s);
    NothingToTrim(s);
  }

  lemma Exported(s: string)
    ensures StripExport(EXPORT + s) == s
  {
    assert EXPORT <= EXPORT + s;
  }

  lemma UnquoteQuoted(v: string)
    ensures Unquote(Quoted(v)) == v
  {
    var q := Quoted(v);
    assert q[0] == '"' && q[|q| - 1] == '"' && q[1..|q| - 1] == v;
  }

  lemma SplitAt(body: string, k: nat)
    requires k < |body| && body[k] == '=' && forall i :: 0 <= i < k ==> body[i] != '='
    ensures SplitEntry(body) == Bind(body[..k], Unquote(body[k + 1..]))
  {
    assert Index(body, '=') == k;
  }

  lemma SplitAtKey(key: string, v: string)
    requires Lacks(key, '=')
    ensures SplitEntry(key + ("=" + v)) == Bind(key, Unquote(v))
  {
    var body := key + ("=" + v);
    SplitAt(body, |key|);
    assert body[..|key|] == key && body[|key| + 1..] == v;
  }

  /** A printed setting reads back as itself exactly when its key has that shape, whatever its value. */
  lemma PrintedLineReads(s: Setting)
    ensures ParseEntry(PrintLine(s)) == Bind(s.key, s.value) <==> KeyShape(s.key)
  {
    if KeyShape(s.key) {
      KeptKeyReads(s.key, s.value);
    } else if ParseEntry(PrintLine(s)) == Bind(s.key, s.value) {
      BoundKeyShape(PrintLine(s));
    }
  }

  lemma KeptKeyReads(key: string, value: string)
    requires KeyShape(key)
    ensures ParseEntry(EXPORT + (" " + (key + ("=" + Quoted(value))))) == Bind(key, value)
  {
    var body := key + ("=" + Quoted(value));
    assert body[|body| - 1] == '"' && body[0] == (if key == "" then '=' else key[0]);
    var line := EXPORT + (" " + body);
    assert line[0] == 'e' && line[|line| - 1] == body[|body| - 1];
    NothingToTrim(line);
    Exported(" " + body);
    TrimOneSpace(body);
    SplitAtKey(key, Quoted(value));
    UnquoteQuoted(value);
  }

  /** A setting whose line survives printing, scanning and parsing. */
  predicate Printable(s: Setting) {
    KeyShape(s.key) && Lacks(s.key, '\n') && Lacks(s.value, '\n') && Fits(PrintLine(s))
  }

  lemma LacksAppend(a: string, b: string, c: char)
    requires Lacks(a, c) && Lacks(b, c)
    ensures Lacks(a + b, c)
  {
  }

  lemma PrintedInOneLine(s: Setting)
    requires Lacks(s.key, '\n') && Lacks(s.value, '\n')
    ensures Lacks(PrintLine(s), '\n') && DropCR(PrintLine(s)) == PrintLine(s)
  {
    LacksAppend("\"", s.value, '\n');
    LacksAppend("\"" + s.value, "\"", '\n');
    LacksAppend("=", Quoted(s.value), '\n');
    LacksAppend(s.key, "=" + Quoted(s.value), '\n');
    LacksAppend(" ", s.key + ("=" + Quoted(s.value)), '\n');
    LacksAppend(EXPORT, " " + (s.key + ("=" + Quoted(s.value))), '\n');
    var line := PrintLine(s);
    assert line[|line| - 1] == Quoted(s.value)[|Quoted(s.value)| - 1] == '"';
  }

  lemma PutOverrides(alias: Aliasing, config: Configuration, key: string, value: string)
    ensures config + Put(alias, map[], key, value) == Put(alias, config, key, value)
  {
  }

  lemma PrintedLineTaken(s: Setting)
    requires Printable(s)
    ensures Read(PrintLine(s)) == Bind(s.key, s.value) && Lacks(PrintLine(s), '\n')
  {
    PrintedInOneLine(s);
    PrintedLineReads(s);
  }

  /** Printing settings and parsing the text has the effect of the settings, one after another. */
  lemma {:induction false} RoundTrip(settings: seq<Setting>)
    requires forall i :: 0 <= i < |settings| ==> Printable(settings[i])
    ensures Parse(Print(settings)) == PutAll(Alias, map[], settings)
    ensures Terminated(Print(settings)) && AllFit(RawLines(Print(settings)))
  {
    if settings != [] {
      var n := |settings| - 1;
      var s, front := settings[n], Print(settings[..n]);
      RoundTrip(settings[..n]);
      PrintedLineTaken(s);
      ParseOneMore(front, PrintLine(s));
      PutOverrides(Alias, Parse(front), s.key, s.value);
    } else {
      assert ReadAll(Scanned(RawLines(""))) == [];
    }
  }

  /** Settings with distinct keys, none of which sets a credential, come back exactly. */
  lemma PlainSettingsReturn(settings: seq<Setting>)
    requires forall i :: 0 <= i < |settings| ==> Printable(settings[i]) && Alias(settings[i].key).None?
    requires forall i, j :: 0 <= i < j < |settings| ==> settings[i].key != settings[j].key
    ensures forall i :: 0 <= i < |settings| ==>
              Lookup(Parse(Print(settings)), settings[i].key) == Some(settings[i].value)
    ensures forall k :: k in Parse(Print(settings)) ==> exists i :: 0 <= i < |settings| && settings[i].key == k
  {
    RoundTrip(settings);
    PlainSettings(Alias, settings);
  }

  // ---------- Printing a parsed configuration ----------

  predicate IsCredential(k: string) {
    k == "accesskey" || k == "secretkey"
  }

  predicate CredentialsLast(order: seq<string>) {
    forall i, j :: 0 <= i < j < |order| && IsCredential(order[i]) ==> IsCredential(order[j])
  }

  lemma CredentialTargets(a: string)
    ensures Target(Alias, a) <==> IsCredential(a)
    ensures IsCredential(a) ==> Alias(a).None?
  {
    assert Alias("MINIO_ROOT_USER") == Some("accesskey");
    assert Alias("MINIO_ROOT_PASSWORD") == Some("secretkey");
  }

  /** Printing what was parsed, in any order that names every key and puts the two credentials last, and parsing
      it again gives the same configuration. */
  lemma ReprintFixpoint(text: string, order: seq<string>)
    requires forall k :: k in Parse(text) <==> k in order
    requires CredentialsLast(order)
    requires forall i :: 0 <= i < |order| ==> Fits(PrintLine(Listed(Parse(text), order)[i]))
    ensures Parse(Print(Listed(Parse(text), order))) == Parse(text)
  {
    var config := Parse(text);
    var settings := Listed(config, order);
    forall i | 0 <= i < |settings| ensures Printable(settings[i]) {
      assert order[i] in order;
      ParsedSettingShape(text, order[i]);
    }
    RoundTrip(settings);
    ReenterAll(text, order);
  }

  lemma ReenterAll(text: string, order: seq<string>)
    requires forall k :: k in Parse(text) <==> k in order
    requires CredentialsLast(order)
    ensures PutAll(Alias, map[], Listed(Parse(text), order)) == Parse(text)
  {
    forall a ensures Target(Alias, a) <==> IsCredential(a) ensures IsCredential(a) ==> Alias(a).None? {
      CredentialTargets(a);
    }
    FoldAliasClosed(Alias, map[], ReadAll(Scanned(RawLines(text))));
    ListedReturns(Alias, Parse(text), order);
  }

  lemma {:induction false} RawLinesLack(text: string)
    ensures forall i :: 0 <= i < |RawLines(text)| ==> Lacks(RawLines(text)[i], '\n')
  {
    if text != "" {
      var k := Index(text, '\n');
      if k < |text| {
        RawLinesLack(text[k + 1..]);
      }
    }
  }

  /** Keys and values of a parsed configuration can be printed again. */
  lemma ParsedSettingShape(text: string, k: string)
    requires k in Parse(text)
    ensures KeyShape(k) && Lacks(k, '\n') && Lacks(Parse(text)[k], '\n')
  {
    var lines := Scanned(RawLines(text));
    LastLineWins(text, k);
    RawLinesLack(text);
    var i := LastGivenAt(Alias, ReadAll(lines), k);
    assert lines[i] == RawLines(text)[i];
    ReadShape(lines[i]);
    GivenShape(Read(lines[i]), k);
  }

  predicate EntryShape(e: Entry) {
    e.Bind? ==> KeyShape(e.key) && Lacks(e.key, '\n') && Lacks(e.value, '\n')
  }

  lemma GivenShape(e: Entry, k: string)
    requires EntryShape(e) && Gives(Alias, e, k).Some?
    ensures KeyShape(k) && Lacks(k, '\n') && Lacks(Gives(Alias, e, k).value, '\n')
  {
    if e.key != k {
      CredentialTargets(k);
      CredentialShape();
    }
  }

  lemma CredentialShape()
    ensures KeyShape("accesskey") && Lacks("accesskey", '\n')
    ensures KeyShape("secretkey") && Lacks("secretkey", '\n')
  {
  }

  lemma ReadShape(line: string)
    requires Lacks(line, '\n')
    ensures EntryShape(Read(line))
  {
    var l := DropCR(line);
    assert Lacks(l, '\n');
    var entry := TrimSpace(l);
    TrimLacks(l, '\n');
    assert Lacks(StripExport(entry), '\n');
    TrimLacks(StripExport(entry), '\n');
    SplitShape(TrimSpace(StripExport(entry)));
  }

  lemma SplitShape(body: string)
    requires Lacks(body, '\n') && (body == "" || !IsSpace(body[0]))
    ensures EntryShape(SplitEntry(body))
  {
    if SplitEntry(body).Bind? {
      SplitKeyShape(body);
    }
  }

  lemma {:induction false} TrimLeftSuffix(s: string)
    ensures |TrimLeft(s)| <= |s| && TrimLeft(s) == s[|s| - |TrimLeft(s)|..]
  {
    if s != "" && IsSpace(s[0]) {
      TrimLeftSuffix(s[1..]);
    }
  }

  lemma TrimLacks(s: string, c: char)
    requires Lacks(s, c)
    ensures Lacks(TrimSpace(s), c)
  {
    TrimLeftSuffix(s);
    var l := TrimLeft(s);
    assert forall i :: 0 <= i < |l| ==> l[i] == s[|s| - |l| + i];
    assert TrimRight(l) <= l;
  }
}
