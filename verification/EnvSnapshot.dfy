/** The canonical environment snapshot of the stream targets: printing, strict parsing, and the manifest. */
module EnvSnapshot {
  import opened Json
  import opened Collections

  // ------------------------------------------------------------------------- decimal numbers

  function Digit(d: nat): char
    requires d < 10
  {
    '0' + d as char
  }

  predicate IsDigit(c: char)
  {
    '0' <= c <= '9'
  }

  function DigitOf(c: char): (d: nat)
    requires IsDigit(c)
    ensures d < 10 && Digit(d) == c
  {
    (c - '0') as nat
  }

  /** `str(n)` */
  function Decimal(n: nat): string
  {
    if n < 10 then [Digit(n)] else Decimal(n / 10) + [Digit(n % 10)]
  }

  /** The positive integers without leading zeros. */
  predicate IsCanonical(s: string)
  {
    s != "" && s[0] != '0' && forall i :: 0 <= i < |s| ==> IsDigit(s[i])
  }

  /** `int(s)` of a string of digits. */
  function Number(s: string): nat
    requires forall i :: 0 <= i < |s| ==> IsDigit(s[i])
  {
    if s == "" then 0 else 10 * Number(s[..|s| - 1]) + DigitOf(s[|s| - 1])
  }

  lemma {:induction false} DecimalIsCanonical(n: nat)
    requires n > 0
    ensures IsCanonical(Decimal(n)) && Number(Decimal(n)) == n
  {
    if n < 10 {
      assert Decimal(n)[..0] == "";
    } else {
      DecimalIsCanonical(n / 10);
      assert Decimal(n)[..|Decimal(n)| - 1] == Decimal(n / 10);
    }
  }

  lemma {:induction false} CanonicalIsDecimal(s: string)
    requires IsCanonical(s)
    ensures Number(s) > 0 && Decimal(Number(s)) == s
  {
    var init := s[..|s| - 1];
    if |s| == 1 {
      assert Number(init) == 0;
    } else {
      CanonicalIsDecimal(init);
      assert s == init + [s[|s| - 1]];
    }
  }

  // --------------------------------------------------------------------------------- values

  datatype Value = IntValue(n: int) | FloatValue(x: real) | OtherValue(text: string)

  /** Python's float: which numbers are floats, how one is printed, which one a text or an integer converts to. */
  datatype Floats = Floats(
    isFloat: real -> bool, repr: real -> string, parse: string -> Option<real>, ofInt: int -> Option<real>)

  /** Whitespace as `str.strip` sees it in ASCII text. */
  predicate IsSpace(c: char)
  {
    c as int in {9, 10, 11, 12, 13, 28, 29, 30, 31, 32}
  }

  predicate IsQuote(c: char)
  {
    c == '"' || c == '\''
  }

  predicate Clean(s: string)
  {
    s != "" && forall i :: 0 <= i < |s| ==> s[i] != '=' && !IsQuote(s[i]) && !IsSpace(s[i]) && s[i] as int < 128
  }

  /** Every positive float prints as plain text that reads back as it. */
  ghost predicate FloatsPrint(f: Floats)
  {
    forall x :: x > 0.0 && f.isFloat(x) ==> Clean(f.repr(x)) && f.parse(f.repr(x)) == Some(x)
  }

  /** `float(text)`, which is a float or fails. */
  function ParseFloat(s: string, f: Floats): Option<real>
  {
    if f.parse(s).Some? && f.isFloat(f.parse(s).value) then f.parse(s) else None
  }

  /** `_canonical_numeric`; an integer too large for a float is an error as well. */
  function Canonical(v: Value, float: bool, f: Floats): Option<string>
  {
    match v
    case IntValue(n) =>
      if !float then (if n > 0 then Some(Decimal(n)) else None)
      else if f.ofInt(n).Some? && f.ofInt(n).value > 0.0 then Some(f.repr(f.ofInt(n).value))
      else None
    case FloatValue(x) =>
      if float && x > 0.0 then Some(f.repr(x)) else None
    case OtherValue(_) => None
  }

  /** The converter applied to a canonical text. */
  function Convert(s: string, float: bool, f: Floats): Option<Value>
  {
    if float then
      if ParseFloat(s, f).Some? then Some(FloatValue(ParseFloat(s, f).value)) else None
    else
      if IsCanonical(s) then Some(IntValue(Number(s))) else None
  }

  /** One printer and parser for which every positive float prints: here the floats are the whole numbers. */
  function WholeFloats(): Floats
  {
    Floats(isFloat := (x: real) => x.Floor as real == x,
           repr := (x: real) => if x.Floor > 0 then Decimal(x.Floor) else "",
           parse := s => if IsCanonical(s) then Some(Number(s) as real) else None,
           ofInt := n => Some(n as real))
  }

  lemma DigitsAreClean(s: string)
    requires IsCanonical(s)
    ensures Clean(s)
  {
    assert forall i :: 0 <= i < |s| ==> IsDigit(s[i]);
  }

  lemma WholeFloatsPrint()
    ensures FloatsPrint(WholeFloats())
  {
    var f := WholeFloats();
    forall x | x > 0.0 && f.isFloat(x)
      ensures Clean(f.repr(x)) && f.parse(f.repr(x)) == Some(x)
    {
      DecimalIsCanonical(x.Floor);
      DigitsAreClean(Decimal(x.Floor));
    }
  }

  /** The values a setting may have: positive, and of the setting's own type. */
  predicate Fits(v: Value, float: bool, f: Floats)
  {
    if float then v.FloatValue? && v.x > 0.0 && f.isFloat(v.x) else v.IntValue? && v.n > 0
  }

  lemma CanonicalRoundTrip(v: Value, float: bool, f: Floats)
    requires FloatsPrint(f) && Fits(v, float, f)
    ensures Canonical(v, float, f).Some? && Clean(Canonical(v, float, f).value)
    ensures Convert(Canonical(v, float, f).value, float, f) == Some(v)
  {
    if !float {
      DecimalIsCanonical(v.n);
    }
  }

  /** Canonical text is the canonical text of the one value it converts to. */
  lemma ConvertedIsCanonical(s: string, float: bool, f: Floats)
    requires Convert(s, float, f).Some? && Canonical(Convert(s, float, f).value, float, f) == Some(s)
    ensures Fits(Convert(s, float, f).value, float, f)
  {
  }

  // --------------------------------------------------------------------------------- fields

  /** One overridable setting of one stream. */
  datatype TargetField = TargetField(key: string, stream: string, setting: string, float: bool)

  const EVENTS_KEY := "AATS_NATS_EVENTS_"
  const MARKET_KEY := "AATS_NATS_MARKET_"

  /** The allowlist, in the order of its keys. */
  const TARGETS: seq<TargetField> := [
    TargetField(EVENTS_KEY + "MAX_AGE_SECONDS", "AATS_EVENTS", "max_age_seconds", true),
    TargetField(EVENTS_KEY + "MAX_BYTES", "AATS_EVENTS", "max_bytes", false),
    TargetField(EVENTS_KEY + "MAX_MSGS", "AATS_EVENTS", "max_msgs", false),
    TargetField(EVENTS_KEY + "MAX_MSG_SIZE", "AATS_EVENTS", "max_msg_size", false),
    TargetField(MARKET_KEY + "MAX_AGE_SECONDS", "AATS_EVENTS_MARKET", "max_age_seconds", true),
    TargetField(MARKET_KEY + "MAX_BYTES", "AATS_EVENTS_MARKET", "max_bytes", false),
    TargetField(MARKET_KEY + "MAX_MSGS", "AATS_EVENTS_MARKET", "max_msgs", false),
    TargetField(MARKET_KEY + "MAX_MSG_SIZE", "AATS_EVENTS_MARKET", "max_msg_size", false)]

  type Values = map<string, Value>

  predicate IsKey(key: string)
  {
    Clean(key) && key[0] != '#'
  }

  predicate Apart(a: TargetField, b: TargetField)
  {
    a.key != b.key && (a.stream != b.stream || a.setting != b.setting)
  }

  predicate FieldsWf(fields: seq<TargetField>)
  {
    && (forall i :: 0 <= i < |fields| ==> IsKey(fields[i].key))
    && (forall i, j {:trigger Apart(fields[i], fields[j])} :: 0 <= i < j < |fields| ==> Apart(fields[i], fields[j]))
  }

  lemma KeyFromParts(owner: string, setting: string)
    requires Clean(owner) && owner[0] == 'A' && Clean(setting)
    ensures IsKey(owner + setting)
  {
  }

  lemma OwnersAreClean()
    ensures Clean(EVENTS_KEY) && EVENTS_KEY[0] == 'A' && |EVENTS_KEY| == 17 && EVENTS_KEY[10] == 'E'
    ensures Clean(MARKET_KEY) && MARKET_KEY[0] == 'A' && |MARKET_KEY| == 17 && MARKET_KEY[10] == 'M'
  {
  }

  lemma SettingsAreClean()
    ensures Clean("MAX_AGE_SECONDS") && Clean("MAX_BYTES") && Clean("MAX_MSGS") && Clean("MAX_MSG_SIZE")
  {
  }

  const SETTING_KEYS := ["MAX_AGE_SECONDS", "MAX_BYTES", "MAX_MSGS", "MAX_MSG_SIZE"]

  lemma TargetParts(i: nat)
    requires i < |TARGETS|
    ensures TARGETS[i].key == (if i < 4 then EVENTS_KEY else MARKET_KEY) + SETTING_KEYS[i % 4]
  {
  }

  lemma SettingKeysAreClean(i: nat)
    requires i < 4
    ensures Clean(SETTING_KEYS[i]) && |SETTING_KEYS[i]| == [15, 9, 8, 12][i]
  {
    SettingsAreClean();
    assert |"MAX_AGE_SECONDS"| == 15 && |"MAX_BYTES"| == 9 && |"MAX_MSGS"| == 8 && |"MAX_MSG_SIZE"| == 12;
  }

  lemma TargetNames(i: nat)
    requires i < |TARGETS|
    ensures |TARGETS[i].stream| == (if i < 4 then 11 else 18) && |TARGETS[i].setting| == [15, 9, 8, 12][i % 4]
  {
    assert |"max_age_seconds"| == 15 && |"max_bytes"| == 9 && |"max_msgs"| == 8 && |"max_msg_size"| == 12;
    assert |"AATS_EVENTS"| == 11 && |"AATS_EVENTS_MARKET"| == 18;
  }

  lemma TargetKeys(i: nat)
    requires i < |TARGETS|
    ensures IsKey(TARGETS[i].key) && |TARGETS[i].key| == 17 + [15, 9, 8, 12][i % 4]
    ensures TARGETS[i].key[10] == (if i < 4 then 'E' else 'M') && |TARGETS[i].stream| == (if i < 4 then 11 else 18)
    ensures |TARGETS[i].setting| == [15, 9, 8, 12][i % 4]
  {
    OwnersAreClean();
    SettingKeysAreClean(i % 4);
    TargetParts(i);
    TargetNames(i);
    KeyFromParts(if i < 4 then EVENTS_KEY else MARKET_KEY, SETTING_KEYS[i % 4]);
  }

  lemma TargetsWf()
    ensures FieldsWf(TARGETS)
  {
    forall i, j | 0 <= i < j < |TARGETS|
      ensures IsKey(TARGETS[i].key) && IsKey(TARGETS[j].key)
      ensures Apart(TARGETS[i], TARGETS[j])
    {
      TargetKeys(i);
      TargetKeys(j);
    }
    TargetKeys(0);
  }

  // ----------------------------------------------------------------------------- the snapshot

  function LineOf(field: TargetField, number: string): string
  {
    field.key + "=" + number
  }

  type LinePrinter = (Value, TargetField) -> Option<string>

  function PrintLine(v: Value, field: TargetField, f: Floats): Option<string>
  {
    var number := Canonical(v, field.float, f);
    if number.None? then None else Some(LineOf(field, number.value))
  }

  function PrinterWith(f: Floats): LinePrinter
  {
    (v, field) => PrintLine(v, field, f)
  }

  /** The first `n` lines of the snapshot. */
  function Lines(values: Values, fields: seq<TargetField>, n: nat, format: LinePrinter): Option<seq<string>>
    requires n <= |fields|
  {
    if n == 0 then Some([]) else
      var key := fields[n - 1].key;
      var before := Lines(values, fields, n - 1, format);
      if before.None? || key !in values then None else
        var line := format(values[key], fields[n - 1]);
        if line.None? then None else Some(before.value + [line.value])
  }

  /** Every line with its newline. */
  function Joined(lines: seq<string>): string
  {
    if lines == [] then "" else Joined(lines[..|lines| - 1]) + lines[|lines| - 1] + "\n"
  }

  function Text(values: Values, fields: seq<TargetField>, f: Floats): Option<string>
  {
    var lines := Lines(values, fields, |fields|, PrinterWith(f));
    if lines.None? then None else Some(Joined(lines.value))
  }

  /** `text.split("\n")` */
  function Split(text: string): (lines: seq<string>)
    ensures |lines| >= 1
  {
    if text == "" then [""]
    else if text[0] == '\n' then [""] + Split(text[1..])
    else
      var rest := Split(text[1..]);
      [[text[0]] + rest[0]] + rest[1..]
  }

  function Unsplit(lines: seq<string>): string
    requires |lines| >= 1
  {
    if |lines| == 1 then lines[0] else lines[0] + "\n" + Unsplit(lines[1..])
  }

  predicate HasNoNewline(s: string)
  {
    forall i :: 0 <= i < |s| ==> s[i] != '\n'
  }

  lemma {:induction false} SplitJoins(text: string)
    ensures Unsplit(Split(text)) == text
    ensures forall i :: 0 <= i < |Split(text)| ==> HasNoNewline(Split(text)[i])
  {
    if text != "" {
      SplitJoins(text[1..]);
      var rest := Split(text[1..]);
      if text[0] == '\n' {
        assert Split(text)[1..] == rest;
      } else {
        assert Split(text)[1..] == rest[1..];
        if |rest| > 1 {
          assert Unsplit(Split(text)) == ([text[0]] + rest[0]) + "\n" + Unsplit(rest[1..]);
          assert Unsplit(rest) == rest[0] + "\n" + Unsplit(rest[1..]);
        }
      }
      assert text == [text[0]] + text[1..];
    }
  }

  /** The position of the first `=`, or the length. */
  function FirstEquals(line: string): (i: nat)
    ensures i <= |line| && (i < |line| ==> line[i] == '=') && forall j :: 0 <= j < i ==> line[j] != '='
  {
    if line == "" || line[0] == '=' then 0 else 1 + FirstEquals(line[1..])
  }

  /** The checks on one line, in the order of the code; the value it carries. */
  function LineValue(line: string, field: TargetField, f: Floats): Option<Value>
  {
    var raw := LineText(line, field);
    if raw.None? then None else
      var value := Convert(raw.value, field.float, f);
      if value.None? || Canonical(value.value, field.float, f) != raw then None else value
  }

  /** The text after the first equals sign, if the line is plain and the key is the expected one. */
  function LineText(line: string, field: TargetField): Option<string>
  {
    var i := FirstEquals(line);
    var key, raw := line[..i], if i < |line| then line[i + 1..] else "";
    if line == "" || StartsWith(line, "#") || StartsWith(line, "export ") then None
    else if i == |line| || key != field.key || raw == "" || '=' in raw || IsSpace(raw[0]) || IsSpace(raw[|raw| - 1])
            || IsQuote(raw[0]) || IsQuote(raw[|raw| - 1]) then None
    else Some(raw)
  }

  type LineReader = (string, TargetField) -> Option<Value>

  function ReaderWith(f: Floats): LineReader
  {
    (line, field) => LineValue(line, field, f)
  }

  /** The values of the first `n` lines. */
  function LinesValues(lines: seq<string>, fields: seq<TargetField>, n: nat, read: LineReader): Option<Values>
    requires n <= |lines| && n <= |fields|
  {
    if n == 0 then Some(map[]) else
      var before := LinesValues(lines, fields, n - 1, read);
      var value := read(lines[n - 1], fields[n - 1]);
      if before.None? || value.None? || fields[n - 1].key in before.value then None
      else Some(before.value[fields[n - 1].key := value.value])
  }

  predicate WellEnded(text: string)
  {
    '\r' !in text && text != "" && text[|text| - 1] == '\n'
  }

  function Strict(text: string, fields: seq<TargetField>, f: Floats): Option<Values>
  {
    var lines := Split(text);
    if !WellEnded(text) || lines[|lines| - 1] != "" || |lines| != |fields| + 1 then None
    else LinesValues(lines, fields, |fields|, ReaderWith(f))
  }

  /** `_strict_snapshot_values` */
  method StrictValues(text: string, fields: seq<TargetField>, f: Floats) returns (result: Option<Values>)
    ensures result == Strict(text, fields, f)
  {
    var lines := Split(text);
    if !WellEnded(text) || lines[|lines| - 1] != "" || |lines| != |fields| + 1 {
      return None;
    }
    result := ParseLines(lines, fields, ReaderWith(f));
  }

  method ParseLines(lines: seq<string>, fields: seq<TargetField>, read: LineReader) returns (result: Option<Values>)
    requires |lines| >= |fields|
    ensures result == LinesValues(lines, fields, |fields|, read)
  {
    var values: Values := map[];
    for i := 0 to |fields|
      invariant LinesValues(lines, fields, i, read) == Some(values)
    {
      var value := read(lines[i], fields[i]);
      if value.None? || fields[i].key in values {
        LinesFailFrom(lines, fields, i + 1, |fields|, read);
        return None;
      }
      values := values[fields[i].key := value.value];
    }
    return Some(values);
  }

  lemma {:induction false} LinesFailFrom(lines: seq<string>, fields: seq<TargetField>, n: nat, m: nat, read: LineReader)
    requires n <= m <= |fields| && m <= |lines| && LinesValues(lines, fields, n, read).None?
    ensures LinesValues(lines, fields, m, read).None?
  {
    if n < m {
      LinesFailFrom(lines, fields, n, m - 1, read);
    }
  }

  /** `_snapshot_text`: one line for each key, in order. */
  method SnapshotText(values: Values, fields: seq<TargetField>, f: Floats) returns (text: Option<string>)
    ensures text == Text(values, fields, f)
  {
    var lines: seq<string> := [];
    for i := 0 to |fields|
      invariant Lines(values, fields, i, PrinterWith(f)) == Some(lines)
    {
      var field := fields[i];
      if field.key !in values {
        LinesPrintFailsFrom(values, fields, i + 1, |fields|, PrinterWith(f));
        return None;
      }
      var number := Canonical(values[field.key], field.float, f);
      if number.None? {
        LinesPrintFailsFrom(values, fields, i + 1, |fields|, PrinterWith(f));
        return None;
      }
      lines := lines + [LineOf(field, number.value)];
    }
    return Some(Joined(lines));
  }

  lemma {:induction false} LinesPrintFailsFrom(values: Values, fields: seq<TargetField>, n: nat, m: nat, format: LinePrinter)
    requires n <= m <= |fields| && Lines(values, fields, n, format).None?
    ensures Lines(values, fields, m, format).None?
  {
    if n < m {
      LinesPrintFailsFrom(values, fields, n, m - 1, format);
    }
  }

  // ------------------------------------------------------------------ printing and parsing

  lemma {:induction false} SplitConcat(a: string, b: string)
    ensures Split(a + "\n" + b) == Split(a) + Split(b)
  {
    var text := a + "\n" + b;
    if a == "" {
      assert text[1..] == b;
    } else {
      SplitConcat(a[1..], b);
      assert text[1..] == a[1..] + "\n" + b && text[0] == a[0];
      SplitOfCons(text);
      SplitOfCons(a);
      ConsConcat(a[0], Split(a[1..]), Split(b));
    }
  }

  /** The lines of a text from those of the text without its first character. */
  function Cons(c: char, lines: seq<string>): seq<string>
    requires |lines| >= 1
  {
    if c == '\n' then [""] + lines else [[c] + lines[0]] + lines[1..]
  }

  lemma SplitOfCons(text: string)
    requires text != ""
    ensures Split(text) == Cons(text[0], Split(text[1..]))
  {
  }

  lemma ConsConcat(c: char, lines: seq<string>, more: seq<string>)
    requires |lines| >= 1
    ensures Cons(c, lines + more) == Cons(c, lines) + more
  {
  }

  lemma {:induction false} SplitOfLine(line: string)
    requires HasNoNewline(line)
    ensures Split(line) == [line]
  {
    if line != "" {
      SplitOfLine(line[1..]);
      assert [line[0]] + line[1..] == line;
    }
  }

  /** Splitting undoes joining. */
  lemma {:induction false} SplitOfJoined(lines: seq<string>)
    requires forall i :: 0 <= i < |lines| ==> HasNoNewline(lines[i])
    ensures Split(Joined(lines)) == lines + [""]
  {
    if lines != [] {
      var init, last := lines[..|lines| - 1], lines[|lines| - 1];
      SplitOfJoined(init);
      SplitOfLine(last);
      var unended := Joined(init) + last;
      assert Joined(lines) == unended + "\n" + "";
      SplitConcat(unended, "");
      SplitOfAppended(Joined(init), init, last);
      assert init + [last] == lines;
    }
  }

  /** A line appended to text that is empty or ends with a newline is a line of its own. */
  lemma EndedText(text: string, lines: seq<string>)
    requires text == Unsplit(lines + [""]) && lines != []
    ensures text != "" && text == text[..|text| - 1] + "\n"
  {
    UnsplitEnds(lines);
  }

  lemma SplitOfEnded(body: string, lines: seq<string>, line: string)
    requires Split(body + "\n") == lines + [""] && HasNoNewline(line)
    ensures Split(body + "\n" + line) == lines + [line]
  {
    SplitConcat(body, "");
    SplitConcat(body, line);
    SplitOfLine(line);
    assert body + "\n" + "" == body + "\n";
    assert Split(body) == (Split(body) + [""])[..|lines|] == lines;
  }

  lemma SplitOfAppended(text: string, lines: seq<string>, line: string)
    requires Split(text) == lines + [""] && HasNoNewline(line)
    ensures Split(text + line) == lines + [line]
  {
    SplitJoins(text);
    if lines == [] {
      SplitOfLine(line);
      assert text + line == line;
    } else {
      EndedText(text, lines);
      SplitOfEnded(text[..|text| - 1], lines, line);
      assert text + line == text[..|text| - 1] + "\n" + line;
    }
  }

  lemma {:induction false} UnsplitEnds(lines: seq<string>)
    requires lines != []
    ensures var text := Unsplit(lines + [""]); text != "" && text[|text| - 1] == '\n'
  {
    if |lines| == 1 {
      assert (lines + [""])[1..] == [""];
    } else {
      assert (lines + [""])[1..] == lines[1..] + [""];
      UnsplitEnds(lines[1..]);
    }
  }

  lemma {:induction false} FirstEqualsIs(key: string, rest: string)
    requires '=' !in key
    ensures FirstEquals(key + "=" + rest) == |key|
  {
    var line := key + "=" + rest;
    assert line[|key|] == '=';
    assert forall i :: 0 <= i < |key| ==> line[i] == key[i];
  }

  predicate IsAscii(s: string)
  {
    forall i :: 0 <= i < |s| ==> s[i] as int < 128
  }

  /** A line without line breaks that reads as the value. */
  predicate ReadsAs(line: string, field: TargetField, v: Value, read: LineReader)
  {
    HasNoNewline(line) && '\r' !in line && IsAscii(line) && read(line, field) == Some(v)
  }

  /** A printed line reads back as the value it was printed from. */
  lemma PrintedLineReads(v: Value, field: TargetField, f: Floats)
    requires FloatsPrint(f) && IsKey(field.key) && Fits(v, field.float, f)
    ensures PrintLine(v, field, f).Some? && ReadsAs(PrintLine(v, field, f).value, field, v, ReaderWith(f))
  {
    CanonicalRoundTrip(v, field.float, f);
    CleanLineReads(field, Canonical(v, field.float, f).value, v, f);
  }

  lemma CleanLineReads(field: TargetField, raw: string, v: Value, f: Floats)
    requires IsKey(field.key) && Clean(raw) && Convert(raw, field.float, f) == Some(v)
    requires Canonical(v, field.float, f) == Some(raw)
    ensures ReadsAs(LineOf(field, raw), field, v, ReaderWith(f))
  {
    LineIsPlain(field.key, raw);
    CleanText(field, raw);
  }

  lemma CleanText(field: TargetField, raw: string)
    requires IsKey(field.key) && Clean(raw)
    ensures LineText(LineOf(field, raw), field) == Some(raw)
  {
    var line := LineOf(field, raw);
    FirstEqualsIs(field.key, raw);
    assert line[..|field.key|] == field.key && line[|field.key| + 1..] == raw;
    LineIsPlain(field.key, raw);
  }

  lemma LineIsPlain(key: string, raw: string)
    requires IsKey(key) && Clean(raw)
    ensures var line := key + "=" + raw;
            !StartsWith(line, "#") && !StartsWith(line, "export ") && HasNoNewline(line) && '\r' !in line && IsAscii(line)
  {
    var line := key + "=" + raw;
    assert line[0] == key[0];
    assert forall i :: 0 <= i < |line| ==> !IsSpace(line[i]);
    assert ' ' !in line;
    assert "export "[6] == ' ';
  }

  lemma TextIsAfterKey(line: string, field: TargetField)
    requires LineText(line, field).Some?
    ensures line == LineOf(field, LineText(line, field).value)
  {
    LineRejoins(line, FirstEquals(line));
  }

  lemma LineRejoins(line: string, i: nat)
    requires i < |line| && line[i] == '='
    ensures line == line[..i] + "=" + line[i + 1..]
  {
  }

  /** A line that reads as a value is the line printed from it. */
  lemma ReadLineIsPrinted(line: string, field: TargetField, f: Floats)
    requires LineValue(line, field, f).Some?
    ensures var v := LineValue(line, field, f).value;
            Fits(v, field.float, f) && Canonical(v, field.float, f).Some? && line == LineOf(field, Canonical(v, field.float, f).value)
  {
    TextIsAfterKey(line, field);
    ConvertedIsCanonical(LineText(line, field).value, field.float, f);
  }

  /** The first `n` keys. */
  function KeysOf(fields: seq<TargetField>, n: nat): set<string>
    requires n <= |fields|
  {
    if n == 0 then {} else KeysOf(fields, n - 1) + {fields[n - 1].key}
  }

  predicate FreshKey(fields: seq<TargetField>, i: nat)
  {
    i < |fields| && fields[i].key !in KeysOf(fields, i)
  }

  predicate FreshKeys(fields: seq<TargetField>)
  {
    forall i :: 0 <= i < |fields| ==> FreshKey(fields, i)
  }

  lemma {:induction false} KeysOfMeaning(fields: seq<TargetField>, n: nat)
    requires n <= |fields|
    ensures forall i :: 0 <= i < n ==> fields[i].key in KeysOf(fields, n)
    ensures forall k :: k in KeysOf(fields, n) ==> exists i :: 0 <= i < n && fields[i].key == k
  {
    if n > 0 {
      KeysOfMeaning(fields, n - 1);
      forall k | k in KeysOf(fields, n)
        ensures exists i :: 0 <= i < n && fields[i].key == k
      {
        assert k == fields[n - 1].key || k in KeysOf(fields, n - 1);
      }
    }
  }

  lemma KeysAreFresh(fields: seq<TargetField>)
    requires FieldsWf(fields)
    ensures FreshKeys(fields)
  {
    forall i | 0 <= i < |fields|
      ensures FreshKey(fields, i)
    {
      KeysOfMeaning(fields, i);
      assert forall j :: 0 <= j < i ==> Apart(fields[j], fields[i]);
    }
  }

  /** The values are there and may be printed. */
  predicate Complete(values: Values, fields: seq<TargetField>, f: Floats)
  {
    && values.Keys == KeysOf(fields, |fields|)
    && (forall i :: 0 <= i < |fields| ==> fields[i].key in values && Fits(values[fields[i].key], fields[i].float, f))
  }

  predicate LinesRead(lines: seq<string>, values: Values, fields: seq<TargetField>, read: LineReader)
  {
    |lines| <= |fields|
    && forall i :: 0 <= i < |lines| ==>
         fields[i].key in values && ReadsAs(lines[i], fields[i], values[fields[i].key], read)
  }

  lemma {:induction false} PrintedLinesRead(values: Values, fields: seq<TargetField>, n: nat, format: LinePrinter,
                                            read: LineReader)
    requires n <= |fields|
    requires forall i :: 0 <= i < n ==>
               && fields[i].key in values && format(values[fields[i].key], fields[i]).Some?
               && ReadsAs(format(values[fields[i].key], fields[i]).value, fields[i], values[fields[i].key], read)
    ensures var lines := Lines(values, fields, n, format);
            lines.Some? && |lines.value| == n && LinesRead(lines.value, values, fields, read)
  {
    if n > 0 {
      PrintedLinesRead(values, fields, n - 1, format, read);
    }
  }

  lemma {:induction false} ReadLinesAre(lines: seq<string>, values: Values, fields: seq<TargetField>, n: nat, read: LineReader)
    requires n <= |fields| && n <= |lines| && FreshKeys(fields)
    requires forall i :: 0 <= i < n ==>
               fields[i].key in values && read(lines[i], fields[i]) == Some(values[fields[i].key])
    ensures var r := LinesValues(lines, fields, n, read);
            r.Some? && r.value.Keys == KeysOf(fields, n) && forall k :: k in r.value ==> k in values && r.value[k] == values[k]
  {
    if n > 0 {
      ReadLinesAre(lines, values, fields, n - 1, read);
      assert FreshKey(fields, n - 1);
    }
  }

  lemma {:induction false} JoinedHasNoReturn(lines: seq<string>)
    requires forall i :: 0 <= i < |lines| ==> '\r' !in lines[i]
    ensures '\r' !in Joined(lines) && (lines != [] ==> Joined(lines) != "" && Joined(lines)[|Joined(lines)| - 1] == '\n')
  {
    if lines != [] {
      JoinedHasNoReturn(lines[..|lines| - 1]);
    }
  }

  lemma PrintedLines(values: Values, fields: seq<TargetField>, f: Floats)
    requires FloatsPrint(f) && FieldsWf(fields) && Complete(values, fields, f)
    ensures var lines := Lines(values, fields, |fields|, PrinterWith(f));
            lines.Some? && |lines.value| == |fields| && LinesRead(lines.value, values, fields, ReaderWith(f))
  {
    forall i | 0 <= i < |fields|
      ensures var v := values[fields[i].key];
              PrinterWith(f)(v, fields[i]).Some? && ReadsAs(PrinterWith(f)(v, fields[i]).value, fields[i], v, ReaderWith(f))
    {
      PrintedLineReads(values[fields[i].key], fields[i], f);
    }
    PrintedLinesRead(values, fields, |fields|, PrinterWith(f), ReaderWith(f));
  }

  /** Parsing undoes printing. */
  lemma PrintedTextParses(values: Values, fields: seq<TargetField>, f: Floats)
    requires FloatsPrint(f) && FieldsWf(fields) && fields != [] && Complete(values, fields, f)
    ensures Text(values, fields, f).Some? && Strict(Text(values, fields, f).value, fields, f) == Some(values)
    ensures IsAscii(Text(values, fields, f).value)
  {
    PrintedLines(values, fields, f);
    KeysAreFresh(fields);
    var lines := Lines(values, fields, |fields|, PrinterWith(f)).value;
    LinesParse(lines, values, fields, ReaderWith(f));
    LinesAreAscii(lines, values, fields, ReaderWith(f));
  }

  lemma LinesAreAscii(lines: seq<string>, values: Values, fields: seq<TargetField>, read: LineReader)
    requires LinesRead(lines, values, fields, read)
    ensures IsAscii(Joined(lines))
  {
    JoinedIsAscii(lines);
  }

  lemma {:induction false} JoinedIsAscii(lines: seq<string>)
    requires forall i :: 0 <= i < |lines| ==> IsAscii(lines[i])
    ensures IsAscii(Joined(lines))
  {
    if lines != [] {
      JoinedIsAscii(lines[..|lines| - 1]);
    }
  }

  lemma LinesSplit(lines: seq<string>)
    requires lines != [] && forall i :: 0 <= i < |lines| ==> HasNoNewline(lines[i]) && '\r' !in lines[i]
    ensures WellEnded(Joined(lines)) && Split(Joined(lines)) == lines + [""]
  {
    SplitOfJoined(lines);
    JoinedHasNoReturn(lines);
  }

  lemma LinesHaveValues(lines: seq<string>, values: Values, fields: seq<TargetField>, read: LineReader)
    requires FreshKeys(fields) && |lines| == |fields| + 1 && values.Keys == KeysOf(fields, |fields|)
    requires forall i :: 0 <= i < |fields| ==>
               fields[i].key in values && read(lines[i], fields[i]) == Some(values[fields[i].key])
    ensures LinesValues(lines, fields, |fields|, read) == Some(values)
  {
    ReadLinesAre(lines, values, fields, |fields|, read);
    SameEntries(LinesValues(lines, fields, |fields|, read).value, values);
  }

  lemma SameEntries(a: Values, b: Values)
    requires a.Keys == b.Keys && forall k :: k in a ==> k in b && a[k] == b[k]
    ensures a == b
  {
  }

  lemma LinesParse(lines: seq<string>, values: Values, fields: seq<TargetField>, read: LineReader)
    requires FreshKeys(fields) && fields != [] && |lines| == |fields| && values.Keys == KeysOf(fields, |fields|)
    requires LinesRead(lines, values, fields, read)
    ensures WellEnded(Joined(lines)) && Split(Joined(lines)) == lines + [""]
    ensures LinesValues(Split(Joined(lines)), fields, |fields|, read) == Some(values)
  {
    LinesSplit(lines);
    LinesHaveValues(lines + [""], values, fields, read);
  }

  /** What the first lines read as. */
  lemma {:induction false} ReadLinesMean(lines: seq<string>, fields: seq<TargetField>, n: nat, read: LineReader)
    requires n <= |fields| && n <= |lines| && LinesValues(lines, fields, n, read).Some?
    ensures var values := LinesValues(lines, fields, n, read).value;
      && values.Keys == KeysOf(fields, n)
      && forall i :: 0 <= i < n ==>
           fields[i].key in values && read(lines[i], fields[i]) == Some(values[fields[i].key])
  {
    if n > 0 {
      ReadLinesMean(lines, fields, n - 1, read);
    }
  }

  lemma {:induction false} ReadLinesPrint(lines: seq<string>, values: Values, fields: seq<TargetField>, n: nat,
                                          format: LinePrinter)
    requires n <= |fields| && n <= |lines|
    requires forall i :: 0 <= i < n ==>
               fields[i].key in values && format(values[fields[i].key], fields[i]) == Some(lines[i])
    ensures Lines(values, fields, n, format) == Some(lines[..n])
  {
    if n > 0 {
      ReadLinesPrint(lines, values, fields, n - 1, format);
      assert lines[..n] == lines[..n - 1] + [lines[n - 1]];
    }
  }

  /** Text that splits into these lines is these lines joined. */
  lemma SplitDetermines(text: string, lines: seq<string>)
    requires Split(text) == lines + [""]
    ensures text == Joined(lines)
  {
    SplitJoins(text);
    forall i | 0 <= i < |lines|
      ensures HasNoNewline(lines[i])
    {
      assert Split(text)[i] == lines[i];
    }
    SplitOfJoined(lines);
    SplitJoins(Joined(lines));
  }

  lemma ParsedLinesPrint(lines: seq<string>, values: Values, fields: seq<TargetField>, f: Floats)
    requires |lines| >= |fields| && LinesValues(lines, fields, |fields|, ReaderWith(f)) == Some(values)
    ensures Complete(values, fields, f) && Lines(values, fields, |fields|, PrinterWith(f)) == Some(lines[..|fields|])
  {
    var n := |fields|;
    ReadLinesMean(lines, fields, n, ReaderWith(f));
    forall i | 0 <= i < n
      ensures Fits(values[fields[i].key], fields[i].float, f)
      ensures PrinterWith(f)(values[fields[i].key], fields[i]) == Some(lines[i])
    {
      assert ReaderWith(f)(lines[i], fields[i]) == Some(values[fields[i].key]);
      ReadLineIsPrinted(lines[i], fields[i], f);
    }
    ReadLinesPrint(lines, values, fields, n, PrinterWith(f));
  }

  /** Printing undoes parsing: accepted text is exactly the printed form of its values. */
  lemma ParsedTextPrints(text: string, fields: seq<TargetField>, f: Floats)
    requires Strict(text, fields, f).Some?
    ensures Complete(Strict(text, fields, f).value, fields, f)
    ensures Text(Strict(text, fields, f).value, fields, f) == Some(text)
  {
    ParsedLinesPrint(Split(text), Strict(text, fields, f).value, fields, f);
    StrictSplits(text, fields, f);
  }

  lemma StrictSplits(text: string, fields: seq<TargetField>, f: Floats)
    requires Strict(text, fields, f).Some?
    ensures |Split(text)| == |fields| + 1 && text == Joined(Split(text)[..|fields|])
  {
    EndsEmpty(Split(text));
    SplitDetermines(text, Split(text)[..|fields|]);
  }

  lemma EndsEmpty(lines: seq<string>)
    requires lines != [] && lines[|lines| - 1] == ""
    ensures lines == lines[..|lines| - 1] + [""]
  {
  }

  // ----------------------------------------------------------------------------- the manifest

  datatype Stream = Stream(name: string, config: Values)

  type Streams = seq<Stream>

  function Get(streams: Streams, name: string, setting: string): Option<Value>
  {
    if streams == [] then None
    else if streams[0].name != name then Get(streams[1..], name, setting)
    else if setting in streams[0].config then Some(streams[0].config[setting]) else None
  }

  function PutOne(s: Stream, name: string, setting: string, v: Value): Stream
  {
    if s.name == name then s.(config := s.config[setting := v]) else s
  }

  /** `config[field] = value` on the configuration of the named stream. */
  function Put(streams: Streams, name: string, setting: string, v: Value): Streams
  {
    if streams == [] then [] else [PutOne(streams[0], name, setting, v)] + Put(streams[1..], name, setting, v)
  }

  predicate DistinctStreams(streams: Streams)
  {
    forall i, j :: 0 <= i < j < |streams| ==> streams[i].name != streams[j].name
  }

  predicate Named(streams: Streams, name: string)
  {
    exists i :: 0 <= i < |streams| && streams[i].name == name
  }

  lemma {:induction false} GetPut(streams: Streams, name: string, setting: string, v: Value, name': string, setting': string)
    ensures name' != name || setting' != setting ==>
              Get(Put(streams, name, setting, v), name', setting') == Get(streams, name', setting')
    ensures Get(streams, name, setting).Some? ==> Get(Put(streams, name, setting, v), name, setting) == Some(v)
  {
    if streams != [] {
      GetPut(streams[1..], name, setting, v, name', setting');
    }
  }

  /** Putting back what is there changes nothing. */
  lemma {:induction false} PutGet(streams: Streams, name: string, setting: string)
    requires DistinctStreams(streams) && Get(streams, name, setting).Some?
    ensures Put(streams, name, setting, Get(streams, name, setting).value) == streams
  {
    var v := Get(streams, name, setting).value;
    if streams[0].name == name {
      PutElsewhere(streams[1..], name, setting, v);
      assert streams[0].config[setting := v] == streams[0].config;
    } else {
      PutGet(streams[1..], name, setting);
    }
    assert streams == [streams[0]] + streams[1..];
  }

  lemma {:induction false} PutElsewhere(streams: Streams, name: string, setting: string, v: Value)
    requires forall i :: 0 <= i < |streams| ==> streams[i].name != name
    ensures Put(streams, name, setting, v) == streams
  {
    if streams != [] {
      PutElsewhere(streams[1..], name, setting, v);
    }
  }

  lemma {:induction false} PutKeepsNames(streams: Streams, name: string, setting: string, v: Value)
    ensures var after := Put(streams, name, setting, v);
            |after| == |streams| && forall i :: 0 <= i < |streams| ==> after[i].name == streams[i].name
  {
    if streams != [] {
      PutKeepsNames(streams[1..], name, setting, v);
    }
  }

  /** The manifest the profile declares: the defaults with its overrides. */
  function Load(defaults: Streams, overrides: Values, fields: seq<TargetField>, n: nat): Streams
    requires n <= |fields|
  {
    if n == 0 then defaults else
      var before, field := Load(defaults, overrides, fields, n - 1), fields[n - 1];
      if field.key in overrides then Put(before, field.stream, field.setting, overrides[field.key]) else before
  }

  function ReadSetting(streams: Streams, field: TargetField, f: Floats): Option<Value>
  {
    var current := Get(streams, field.stream, field.setting);
    if current.None? then None else
      var number := Canonical(current.value, field.float, f);
      if number.None? then None else Convert(number.value, field.float, f)
  }

  type SettingReader = TargetField -> Option<Value>

  function SettingsIn(streams: Streams, f: Floats): SettingReader
  {
    field => ReadSetting(streams, field, f)
  }

  /** The values of the first `n` keys. */
  function ReadAll(fields: seq<TargetField>, n: nat, read: SettingReader): Option<Values>
    requires n <= |fields|
  {
    if n == 0 then Some(map[]) else
      var before, value := ReadAll(fields, n - 1, read), read(fields[n - 1]);
      if before.None? || value.None? then None else Some(before.value[fields[n - 1].key := value.value])
  }

  function ReadValues(streams: Streams, fields: seq<TargetField>, f: Floats): Option<Values>
  {
    ReadAll(fields, |fields|, SettingsIn(streams, f))
  }

  /** `_manifest_values` */
  method ManifestValues(streams: Streams, fields: seq<TargetField>, f: Floats) returns (values: Option<Values>)
    ensures values == if DistinctStreams(streams) then ReadValues(streams, fields, f) else None
  {
    var distinct := CheckNames(streams);
    if !distinct {
      return None;
    }
    var read: Values := map[];
    for i := 0 to |fields|
      invariant ReadAll(fields, i, SettingsIn(streams, f)) == Some(read)
    {
      var value := ReadSetting(streams, fields[i], f);
      if value.None? {
        ReadFailsFrom(fields, i + 1, |fields|, SettingsIn(streams, f));
        return None;
      }
      read := read[fields[i].key := value.value];
    }
    return Some(read);
  }

  method CheckNames(streams: Streams) returns (distinct: bool)
    ensures distinct <==> DistinctStreams(streams)
  {
    var names: set<string> := {};
    for i := 0 to |streams|
      invariant forall k :: 0 <= k < i ==> streams[k].name in names
      invariant forall n :: n in names ==> exists k :: 0 <= k < i && streams[k].name == n
      invariant forall k, l :: 0 <= k < l < i ==> streams[k].name != streams[l].name
    {
      if streams[i].name in names {
        return false;
      }
      names := names + {streams[i].name};
    }
    return true;
  }

  lemma {:induction false} ReadFailsFrom(fields: seq<TargetField>, n: nat, m: nat, read: SettingReader)
    requires n <= m <= |fields| && ReadAll(fields, n, read).None?
    ensures ReadAll(fields, m, read).None?
  {
    if n < m {
      ReadFailsFrom(fields, n, m - 1, read);
    }
  }

  function WriteSetting(streams: Streams, values: Values, field: TargetField, f: Floats): Option<Streams>
  {
    if field.key !in values || !Named(streams, field.stream) then None else
      var number := Canonical(values[field.key], field.float, f);
      if number.None? || Convert(number.value, field.float, f).None? then None
      else Some(Put(streams, field.stream, field.setting, Convert(number.value, field.float, f).value))
  }

  type SettingWriter = (Streams, TargetField) -> Option<Streams>

  function WriterOf(values: Values, f: Floats): SettingWriter
  {
    (streams, field) => WriteSetting(streams, values, field, f)
  }

  /** The defaults with the first `n` settings written. */
  function WriteAll(defaults: Streams, fields: seq<TargetField>, n: nat, write: SettingWriter): Option<Streams>
    requires n <= |fields|
  {
    if n == 0 then Some(defaults) else
      var before := WriteAll(defaults, fields, n - 1, write);
      if before.None? then None else write(before.value, fields[n - 1])
  }

  function Rebuild(defaults: Streams, values: Values, fields: seq<TargetField>, f: Floats): Option<Streams>
  {
    WriteAll(defaults, fields, |fields|, WriterOf(values, f))
  }

  /** `_manifest_from_values` */
  method ManifestFromValues(defaults: Streams, values: Values, fields: seq<TargetField>, f: Floats)
    returns (streams: Option<Streams>)
    ensures streams == if DistinctStreams(defaults) then Rebuild(defaults, values, fields, f) else None
  {
    var distinct := CheckNames(defaults);
    if !distinct {
      return None;
    }
    var edited := defaults;
    for i := 0 to |fields|
      invariant WriteAll(defaults, fields, i, WriterOf(values, f)) == Some(edited)
    {
      var written := WriteSetting(edited, values, fields[i], f);
      if written.None? {
        WriteFailsFrom(defaults, fields, i + 1, |fields|, WriterOf(values, f));
        return None;
      }
      edited := written.value;
    }
    return Some(edited);
  }

  lemma {:induction false} WriteFailsFrom(defaults: Streams, fields: seq<TargetField>, n: nat, m: nat, write: SettingWriter)
    requires n <= m <= |fields| && WriteAll(defaults, fields, n, write).None?
    ensures WriteAll(defaults, fields, m, write).None?
  {
    if n < m {
      WriteFailsFrom(defaults, fields, n, m - 1, write);
    }
  }

  // ---------------------------------------------------------------- manifest and snapshot agree

  /** Every overridable setting is there, with a value that may be printed. */
  predicate Overridable(defaults: Streams, fields: seq<TargetField>, f: Floats)
  {
    && DistinctStreams(defaults)
    && forall i :: 0 <= i < |fields| ==>
         var current := Get(defaults, fields[i].stream, fields[i].setting);
         current.Some? && Fits(current.value, fields[i].float, f)
  }

  predicate Allowed(overrides: Values, fields: seq<TargetField>, f: Floats)
  {
    forall i :: 0 <= i < |fields| && fields[i].key in overrides ==> Fits(overrides[fields[i].key], fields[i].float, f)
  }

  /** The value a setting ends up with. */
  function Effective(defaults: Streams, overrides: Values, field: TargetField): Option<Value>
  {
    if field.key in overrides then Some(overrides[field.key]) else Get(defaults, field.stream, field.setting)
  }

  lemma {:induction false} LoadedSetting(defaults: Streams, overrides: Values, fields: seq<TargetField>, n: nat, i: nat,
                                         f: Floats)
    requires n <= |fields| && i < |fields| && FieldsWf(fields) && Overridable(defaults, fields, f)
    ensures Get(Load(defaults, overrides, fields, n), fields[i].stream, fields[i].setting)
            == if i < n then Effective(defaults, overrides, fields[i]) else Get(defaults, fields[i].stream, fields[i].setting)
  {
    if n > 0 {
      LoadedSetting(defaults, overrides, fields, n - 1, i, f);
      var field := fields[n - 1];
      assert i < n - 1 ==> Apart(fields[i], field);
      assert n - 1 < i ==> Apart(field, fields[i]);
      if field.key in overrides {
        var before := Load(defaults, overrides, fields, n - 1);
        GetPut(before, field.stream, field.setting, overrides[field.key], fields[i].stream, fields[i].setting);
      }
    }
  }

  lemma {:induction false} LoadKeepsStreams(defaults: Streams, overrides: Values, fields: seq<TargetField>, n: nat)
    requires n <= |fields|
    ensures var after := Load(defaults, overrides, fields, n);
            |after| == |defaults| && forall i :: 0 <= i < |defaults| ==> after[i].name == defaults[i].name
  {
    if n > 0 {
      LoadKeepsStreams(defaults, overrides, fields, n - 1);
      var field := fields[n - 1];
      if field.key in overrides {
        PutKeepsNames(Load(defaults, overrides, fields, n - 1), field.stream, field.setting, overrides[field.key]);
      }
    }
  }

  lemma {:induction false} GetIsNamed(streams: Streams, name: string, setting: string)
    requires Get(streams, name, setting).Some?
    ensures Named(streams, name)
  {
    if streams[0].name != name {
      GetIsNamed(streams[1..], name, setting);
      var i :| 0 <= i < |streams[1..]| && streams[1..][i].name == name;
      assert streams[i + 1].name == name;
    }
  }

  /** The loaded manifest reads as the effective values. */
  lemma LoadedSettingReads(defaults: Streams, overrides: Values, fields: seq<TargetField>, i: nat, f: Floats)
    requires i < |fields| && FieldsWf(fields) && Overridable(defaults, fields, f) && Allowed(overrides, fields, f) && FloatsPrint(f)
    ensures ReadSetting(Load(defaults, overrides, fields, |fields|), fields[i], f) == Effective(defaults, overrides, fields[i])
    ensures Effective(defaults, overrides, fields[i]).Some?
    ensures Fits(Effective(defaults, overrides, fields[i]).value, fields[i].float, f)
  {
    LoadedSetting(defaults, overrides, fields, |fields|, i, f);
    CanonicalRoundTrip(Effective(defaults, overrides, fields[i]).value, fields[i].float, f);
  }

  /** The values hold, for the first `n` keys, what the settings end up with. */
  predicate HoldsEffective(values: Values, defaults: Streams, overrides: Values, fields: seq<TargetField>, n: nat)
    requires n <= |fields|
  {
    && values.Keys == KeysOf(fields, n)
    && forall i :: 0 <= i < n ==>
         fields[i].key in values && Some(values[fields[i].key]) == Effective(defaults, overrides, fields[i])
  }

  lemma LoadedValues(defaults: Streams, overrides: Values, fields: seq<TargetField>, f: Floats)
    requires FieldsWf(fields) && Overridable(defaults, fields, f) && Allowed(overrides, fields, f) && FloatsPrint(f)
    ensures var values := ReadValues(Load(defaults, overrides, fields, |fields|), fields, f);
            values.Some? && HoldsEffective(values.value, defaults, overrides, fields, |fields|)
  {
    var read := SettingsIn(Load(defaults, overrides, fields, |fields|), f);
    forall i | 0 <= i < |fields|
      ensures ReadsEffective(read(fields[i]), defaults, overrides, fields[i])
    {
      LoadedSettingReads(defaults, overrides, fields, i, f);
    }
    EffectiveValues(read, defaults, overrides, fields, |fields|);
  }

  predicate ReadsEffective(v: Option<Value>, defaults: Streams, overrides: Values, field: TargetField)
  {
    v.Some? && v == Effective(defaults, overrides, field)
  }

  lemma {:induction false} EffectiveValues(read: SettingReader, defaults: Streams, overrides: Values,
                                           fields: seq<TargetField>, n: nat)
    requires n <= |fields| && FieldsWf(fields)
    requires forall i :: 0 <= i < n ==> ReadsEffective(read(fields[i]), defaults, overrides, fields[i])
    ensures var values := ReadAll(fields, n, read);
            values.Some? && HoldsEffective(values.value, defaults, overrides, fields, n)
  {
    if n > 0 {
      EffectiveValues(read, defaults, overrides, fields, n - 1);
      assert ReadsEffective(read(fields[n - 1]), defaults, overrides, fields[n - 1]);
      AddEffective(ReadAll(fields, n - 1, read).value, defaults, overrides, fields, n - 1, read(fields[n - 1]).value);
    }
  }

  lemma AddEffective(values: Values, defaults: Streams, overrides: Values, fields: seq<TargetField>, n: nat, v: Value)
    requires n < |fields| && FieldsWf(fields) && HoldsEffective(values, defaults, overrides, fields, n)
    requires Effective(defaults, overrides, fields[n]) == Some(v)
    ensures HoldsEffective(values[fields[n].key := v], defaults, overrides, fields, n + 1)
  {
    forall i | 0 <= i < n
      ensures fields[i].key != fields[n].key
    {
      assert Apart(fields[i], fields[n]);
    }
  }

  lemma {:induction false} WrittenIsLoaded(defaults: Streams, overrides: Values, fields: seq<TargetField>, n: nat,
                                           write: SettingWriter)
    requires n <= |fields|
    requires forall i :: 0 <= i < n ==>
               write(Load(defaults, overrides, fields, i), fields[i]) == Some(Load(defaults, overrides, fields, i + 1))
    ensures WriteAll(defaults, fields, n, write) == Some(Load(defaults, overrides, fields, n))
  {
    if n > 0 {
      WrittenIsLoaded(defaults, overrides, fields, n - 1, write);
    }
  }

  lemma RebuiltFromLoaded(defaults: Streams, overrides: Values, values: Values, fields: seq<TargetField>, f: Floats)
    requires FieldsWf(fields) && Overridable(defaults, fields, f) && Allowed(overrides, fields, f) && FloatsPrint(f)
    requires HoldsEffective(values, defaults, overrides, fields, |fields|)
    ensures Rebuild(defaults, values, fields, f) == Some(Load(defaults, overrides, fields, |fields|))
  {
    forall i | 0 <= i < |fields|
      ensures WriterOf(values, f)(Load(defaults, overrides, fields, i), fields[i])
              == Some(Load(defaults, overrides, fields, i + 1))
    {
      WriteNext(defaults, overrides, values, fields, i, f);
    }
    WrittenIsLoaded(defaults, overrides, fields, |fields|, WriterOf(values, f));
  }

  lemma WriteNext(defaults: Streams, overrides: Values, values: Values, fields: seq<TargetField>, n: nat, f: Floats)
    requires n < |fields| && FieldsWf(fields) && Overridable(defaults, fields, f) && Allowed(overrides, fields, f) && FloatsPrint(f)
    requires HoldsEffective(values, defaults, overrides, fields, |fields|)
    ensures WriteSetting(Load(defaults, overrides, fields, n), values, fields[n], f)
            == Some(Load(defaults, overrides, fields, n + 1))
  {
    LoadedSettingReads(defaults, overrides, fields, n, f);
    LoadedSetting(defaults, overrides, fields, n, n, f);
    LoadKeepsStreams(defaults, overrides, fields, n);
    WriteEffective(Load(defaults, overrides, fields, n), values, fields[n], f);
  }

  /** Writing a value writes it as it is; writing the value already there changes nothing. */
  lemma WriteEffective(streams: Streams, values: Values, field: TargetField, f: Floats)
    requires DistinctStreams(streams) && FloatsPrint(f) && field.key in values && Fits(values[field.key], field.float, f)
    requires Get(streams, field.stream, field.setting).Some?
    ensures WriteSetting(streams, values, field, f) == Some(Put(streams, field.stream, field.setting, values[field.key]))
    ensures Get(streams, field.stream, field.setting) == Some(values[field.key]) ==>
              WriteSetting(streams, values, field, f) == Some(streams)
  {
    GetIsNamed(streams, field.stream, field.setting);
    CanonicalRoundTrip(values[field.key], field.float, f);
    if Get(streams, field.stream, field.setting) == Some(values[field.key]) {
      PutGet(streams, field.stream, field.setting);
    }
  }

  /** Rebuilding a manifest from the values read out of a loaded manifest gives it back. */
  lemma RebuildInvertsRead(defaults: Streams, overrides: Values, fields: seq<TargetField>, f: Floats)
    requires FieldsWf(fields) && Overridable(defaults, fields, f) && Allowed(overrides, fields, f) && FloatsPrint(f)
    ensures var loaded := Load(defaults, overrides, fields, |fields|);
            var values := ReadValues(loaded, fields, f);
            values.Some? && Complete(values.value, fields, f)
            && Rebuild(defaults, values.value, fields, f) == Some(loaded)
  {
    LoadedValues(defaults, overrides, fields, f);
    var values := ReadValues(Load(defaults, overrides, fields, |fields|), fields, f).value;
    RebuiltFromLoaded(defaults, overrides, values, fields, f);
    forall i | 0 <= i < |fields|
      ensures Fits(values[fields[i].key], fields[i].float, f)
    {
      LoadedSettingReads(defaults, overrides, fields, i, f);
    }
  }

  /** Reading the values out of a rebuilt manifest gives them back. */
  lemma ReadInvertsRebuild(defaults: Streams, values: Values, fields: seq<TargetField>, f: Floats)
    requires FieldsWf(fields) && Overridable(defaults, fields, f) && Complete(values, fields, f) && FloatsPrint(f)
    ensures var rebuilt := Rebuild(defaults, values, fields, f);
            rebuilt.Some? && ReadValues(rebuilt.value, fields, f) == Some(values)
  {
    var n := |fields|;
    assert HoldsEffective(values, defaults, values, fields, n);
    RebuiltFromLoaded(defaults, values, values, fields, f);
    LoadedValues(defaults, values, fields, f);
    var read := ReadValues(Load(defaults, values, fields, n), fields, f).value;
    KeysOfMeaning(fields, n);
    forall k | k in read
      ensures k in values && read[k] == values[k]
    {
      var i :| 0 <= i < n && fields[i].key == k;
    }
    SameEntries(read, values);
  }

  // -------------------------------------------------------------------------- verification

  const MAX_SNAPSHOT_BYTES := 4096

  /** SHA-256 of the serialised streams, and the shape of a digest. */
  datatype Digests = Digests(sha: Streams -> string, isDigest: string -> bool)

  /** What `verify_snapshot` asks of a file and an expected digest. */
  predicate Verifies(text: string, expected: string, defaults: Streams, fields: seq<TargetField>, f: Floats, d: Digests)
  {
    && d.isDigest(expected) && |text| <= MAX_SNAPSHOT_BYTES && IsAscii(text)
    && var values := Strict(text, fields, f);
    && values.Some? && DistinctStreams(defaults)
    && var streams := Rebuild(defaults, values.value, fields, f);
    && streams.Some? && d.sha(streams.value) == expected
  }

  method VerifySnapshot(text: string, expected: string, defaults: Streams, fields: seq<TargetField>, f: Floats, d: Digests)
    returns (ok: bool)
    ensures ok <==> Verifies(text, expected, defaults, fields, f, d)
  {
    if !d.isDigest(expected) || |text| > MAX_SNAPSHOT_BYTES || !IsAscii(text) {
      return false;
    }
    var values := StrictValues(text, fields, f);
    if values.None? {
      return false;
    }
    var streams := ManifestFromValues(defaults, values.value, fields, f);
    return streams.Some? && d.sha(streams.value) == expected;
  }

  /** The text `render_snapshot` encodes for a loaded manifest. */
  function Rendered(defaults: Streams, overrides: Values, fields: seq<TargetField>, f: Floats): Option<string>
  {
    var values := ReadValues(Load(defaults, overrides, fields, |fields|), fields, f);
    if values.None? then None else Text(values.value, fields, f)
  }

  /** A rendered snapshot verifies against the digest of its manifest exactly when it is not too long: nothing
      bounds the length when it is rendered. */
  lemma RenderedVerifiesIffShort(defaults: Streams, overrides: Values, fields: seq<TargetField>, f: Floats, d: Digests)
    requires FieldsWf(fields) && fields != [] && FloatsPrint(f)
    requires Overridable(defaults, fields, f) && Allowed(overrides, fields, f)
    requires d.isDigest(d.sha(Load(defaults, overrides, fields, |fields|)))
    ensures var text := Rendered(defaults, overrides, fields, f);
      && text.Some?
      && (Verifies(text.value, d.sha(Load(defaults, overrides, fields, |fields|)), defaults, fields, f, d)
          <==> |text.value| <= MAX_SNAPSHOT_BYTES)
  {
    RebuildInvertsRead(defaults, overrides, fields, f);
    PrintedTextParses(ReadValues(Load(defaults, overrides, fields, |fields|), fields, f).value, fields, f);
  }

  /** And no other text verifies against that digest, unless its manifest and the loaded one collide. */
  lemma OnlyRenderedVerifies(text: string, defaults: Streams, overrides: Values, fields: seq<TargetField>, f: Floats, d: Digests)
    requires FieldsWf(fields) && FloatsPrint(f) && Overridable(defaults, fields, f)
    requires Verifies(text, d.sha(Load(defaults, overrides, fields, |fields|)), defaults, fields, f, d)
    requires var rebuilt := Rebuild(defaults, Strict(text, fields, f).value, fields, f).value;
             var loaded := Load(defaults, overrides, fields, |fields|);
             d.sha(rebuilt) == d.sha(loaded) ==> rebuilt == loaded
    ensures Rendered(defaults, overrides, fields, f) == Some(text)
  {
    ParsedTextPrints(text, fields, f);
    ReadInvertsRebuild(defaults, Strict(text, fields, f).value, fields, f);
  }

  function PowerOfTen(m: nat): nat
  {
    if m == 0 then 1 else 10 * PowerOfTen(m - 1)
  }

  lemma {:induction false} PowerOfTenIsLong(m: nat)
    ensures PowerOfTen(m) > 0 && |Decimal(PowerOfTen(m))| == m + 1
  {
    if m > 0 {
      PowerOfTenIsLong(m - 1);
      assert PowerOfTen(m) / 10 == PowerOfTen(m - 1);
    }
  }

  lemma {:induction false} JoinedIsLong(lines: seq<string>, i: nat)
    requires i < |lines|
    ensures |Joined(lines)| > |lines[i]|
  {
    if i < |lines| - 1 {
      JoinedIsLong(lines[..|lines| - 1], i);
    }
  }

  /** There is always such a manifest: with a number of more than 4096 digits, and ten to any power of 4096 or
      more is one, the rendered snapshot does not verify against the digest of its own manifest. */
  lemma LongSnapshotFails(defaults: Streams, fields: seq<TargetField>, i: nat, n: nat, f: Floats, d: Digests)
    requires FieldsWf(fields) && FloatsPrint(f) && Overridable(defaults, fields, f) && i < |fields| && !fields[i].float
    requires n > 0 && |Decimal(n)| > MAX_SNAPSHOT_BYTES
    requires d.isDigest(d.sha(Load(defaults, map[fields[i].key := IntValue(n)], fields, |fields|)))
    ensures var overrides := map[fields[i].key := IntValue(n)];
            var text := Rendered(defaults, overrides, fields, f);
            Allowed(overrides, fields, f) && text.Some?
            && !Verifies(text.value, d.sha(Load(defaults, overrides, fields, |fields|)), defaults, fields, f, d)
  {
    OneOverrideAllowed(fields, i, IntValue(n), f);
    RenderedIsLong(defaults, map[fields[i].key := IntValue(n)], fields, i, f, IntValue(n));
  }

  lemma OneOverrideAllowed(fields: seq<TargetField>, i: nat, v: Value, f: Floats)
    requires FieldsWf(fields) && i < |fields| && Fits(v, fields[i].float, f)
    ensures Allowed(map[fields[i].key := v], fields, f)
  {
    forall j | 0 <= j < |fields| && fields[j].key == fields[i].key
      ensures j == i
    {
      assert j < i ==> Apart(fields[j], fields[i]);
      assert i < j ==> Apart(fields[i], fields[j]);
    }
  }

  /** Settings of both streams as a profile may leave them. */
  const PLAIN_SETTINGS: Values := map[
    "max_age_seconds" := FloatValue(86400.0), "max_bytes" := IntValue(1024), "max_msgs" := IntValue(1000),
    "max_msg_size" := IntValue(64)]

  const PLAIN_STREAMS: Streams := [Stream.Stream("AATS_EVENTS", PLAIN_SETTINGS), Stream.Stream("AATS_EVENTS_MARKET", PLAIN_SETTINGS)]

  lemma PlainStreamsHold(setting: string)
    requires setting in PLAIN_SETTINGS
    ensures Get(PLAIN_STREAMS, "AATS_EVENTS", setting) == Some(PLAIN_SETTINGS[setting])
    ensures Get(PLAIN_STREAMS, "AATS_EVENTS_MARKET", setting) == Some(PLAIN_SETTINGS[setting])
    ensures DistinctStreams(PLAIN_STREAMS)
  {
    assert |"AATS_EVENTS"| != |"AATS_EVENTS_MARKET"|;
    assert PLAIN_STREAMS[1..][0] == PLAIN_STREAMS[1];
  }

  lemma PlainSettingsFit(i: nat)
    requires i < |TARGETS|
    ensures TARGETS[i].setting in PLAIN_SETTINGS && Fits(PLAIN_SETTINGS[TARGETS[i].setting], TARGETS[i].float, WholeFloats())
  {
    assert |"max_age_seconds"| == 15 && |"max_bytes"| == 9 && |"max_msgs"| == 8 && |"max_msg_size"| == 12;
    assert TARGETS[i].setting == ["max_age_seconds", "max_bytes", "max_msgs", "max_msg_size"][i % 4];
  }

  lemma PlainStreamsOverridable()
    ensures Overridable(PLAIN_STREAMS, TARGETS, WholeFloats())
  {
    PlainStreamsHold("max_bytes");
    forall i | 0 <= i < |TARGETS|
      ensures Get(PLAIN_STREAMS, TARGETS[i].stream, TARGETS[i].setting) == Some(PLAIN_SETTINGS[TARGETS[i].setting])
      ensures Fits(PLAIN_SETTINGS[TARGETS[i].setting], TARGETS[i].float, WholeFloats())
    {
      PlainSettingsFit(i);
      PlainStreamsHold(TARGETS[i].setting);
    }
  }

  /** An input for the lemma above: two plain streams, the largest size of the first set to such a number, under
      any digest whatever. */
  lemma LongSnapshotExample(defaults: Streams, fields: seq<TargetField>, n: nat, sha: Streams -> string)
    requires defaults == PLAIN_STREAMS && fields == TARGETS && n > 0 && |Decimal(n)| > MAX_SNAPSHOT_BYTES
    ensures var overrides, f := map[fields[1].key := IntValue(n)], WholeFloats();
            var d := Digests(sha, s => true);
            var text := Rendered(defaults, overrides, fields, f);
            Overridable(defaults, fields, f) && Allowed(overrides, fields, f) && text.Some?
            && !Verifies(text.value, sha(Load(defaults, overrides, fields, |fields|)), defaults, fields, f, d)
  {
    TargetsWf();
    WholeFloatsPrint();
    PlainStreamsOverridable();
    LongSnapshotFails(defaults, fields, 1, n, WholeFloats(), Digests(sha, s => true));
  }

  lemma RenderedIsLong(defaults: Streams, overrides: Values, fields: seq<TargetField>, i: nat, f: Floats, v: Value)
    requires FieldsWf(fields) && FloatsPrint(f) && Overridable(defaults, fields, f) && Allowed(overrides, fields, f)
    requires i < |fields| && fields[i].key in overrides && overrides[fields[i].key] == v
    requires Canonical(v, fields[i].float, f).Some?
    ensures Rendered(defaults, overrides, fields, f).Some?
    ensures |Rendered(defaults, overrides, fields, f).value| > |Canonical(v, fields[i].float, f).value|
  {
    var loaded := Load(defaults, overrides, fields, |fields|);
    LoadedValues(defaults, overrides, fields, f);
    RebuildInvertsRead(defaults, overrides, fields, f);
    var values := ReadValues(loaded, fields, f).value;
    LinesArePrinted(values, fields, |fields|, f);
    var lines := Lines(values, fields, |fields|, PrinterWith(f)).value;
    JoinedIsLong(lines, i);
  }

  lemma {:induction false} LinesArePrinted(values: Values, fields: seq<TargetField>, n: nat, f: Floats)
    requires n <= |fields| && FloatsPrint(f) && Complete(values, fields, f)
    ensures var lines := Lines(values, fields, n, PrinterWith(f));
      && lines.Some? && |lines.value| == n
      && forall i :: 0 <= i < n ==> PrintLine(values[fields[i].key], fields[i], f) == Some(lines.value[i])
  {
    if n > 0 {
      LinesArePrinted(values, fields, n - 1, f);
      CanonicalRoundTrip(values[fields[n - 1].key], fields[n - 1].float, f);
    }
  }
}
