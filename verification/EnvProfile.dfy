/** Reading the allowlisted overrides out of a deployment profile, which may hold anything else besides. */
module EnvProfile {
  import opened Json
  import opened Collections
  import opened EnvSnapshot

  /** `int` of any text, beside `float`. */
  datatype Parsers = Parsers(parseInt: string -> Option<int>, floats: Floats)

  function LStrip(s: string): string
  {
    if s == "" || !IsSpace(s[0]) then s else LStrip(s[1..])
  }

  function RStrip(s: string): string
  {
    if s == "" || !IsSpace(s[|s| - 1]) then s else RStrip(s[..|s| - 1])
  }

  function Strip(s: string): string
  {
    RStrip(LStrip(s))
  }

  function Unquoted(s: string): string
  {
    if |s| >= 2 && s[0] == s[|s| - 1] && IsQuote(s[0]) then s[1..|s| - 1] else s
  }

  function IndexOf(fields: seq<TargetField>, key: string): (i: nat)
    ensures i <= |fields| && (i < |fields| ==> fields[i].key == key)
  {
    if fields == [] || fields[0].key == key then 0 else 1 + IndexOf(fields[1..], key)
  }

  /** What a line assigns: nothing of interest, or a text to one of the fields. */
  datatype Assignment = Ignored | Assigned(field: TargetField, text: string)

  function ReadLine(line: string, fields: seq<TargetField>): Assignment
  {
    var stripped := LStrip(line);
    var candidate := if StartsWith(stripped, "export ") then LStrip(stripped[7..]) else stripped;
    var i := FirstEquals(candidate);
    var k := IndexOf(fields, Strip(candidate[..i]));
    if i == |candidate| || k == |fields| then Ignored
    else Assigned(fields[k], Unquoted(Strip(candidate[i + 1..])))
  }

  function PositiveValue(text: string, float: bool, p: Parsers): Option<Value>
  {
    if float then
      var x := ParseFloat(text, p.floats);
      if x.Some? && x.value > 0.0 then Some(FloatValue(x.value)) else None
    else
      var n := p.parseInt(text);
      if n.Some? && n.value > 0 then Some(IntValue(n.value)) else None
  }

  type AssignmentReader = string -> Assignment

  function ReaderFor(fields: seq<TargetField>): AssignmentReader
  {
    line => ReadLine(line, fields)
  }

  /** The overrides in the first `n` lines; none when a key is given twice or its value is not a positive number. */
  function OverridesBy(lines: seq<string>, read: AssignmentReader, n: nat, p: Parsers): Option<Values>
    requires n <= |lines|
  {
    if n == 0 then Some(map[]) else
      var before := OverridesBy(lines, read, n - 1, p);
      if before.None? then None else AddOverride(before.value, read(lines[n - 1]), p)
  }

  function Overrides(lines: seq<string>, fields: seq<TargetField>, p: Parsers): Option<Values>
  {
    OverridesBy(lines, ReaderFor(fields), |lines|, p)
  }

  function AddOverride(before: Values, a: Assignment, p: Parsers): Option<Values>
  {
    if a.Ignored? then Some(before)
    else
      var value := PositiveValue(a.text, a.field.float, p);
      if a.field.key in before || value.None? then None else Some(before[a.field.key := value.value])
  }

  /** The line loop of `load_target_stream_manifest` */
  method LoadOverrides(lines: seq<string>, fields: seq<TargetField>, p: Parsers) returns (overrides: Option<Values>)
    ensures overrides == Overrides(lines, fields, p)
  {
    var found: Values := map[];
    for i := 0 to |lines|
      invariant OverridesBy(lines, ReaderFor(fields), i, p) == Some(found)
    {
      var a := ReadLine(lines[i], fields);
      if a.Ignored? {
        continue;
      }
      var value := PositiveValue(a.text, a.field.float, p);
      if a.field.key in found || value.None? {
        OverridesFailFrom(lines, ReaderFor(fields), i + 1, |lines|, p);
        return None;
      }
      found := found[a.field.key := value.value];
    }
    return Some(found);
  }

  lemma {:induction false} OverridesFailFrom(lines: seq<string>, read: AssignmentReader, n: nat, m: nat, p: Parsers)
    requires n <= m <= |lines| && OverridesBy(lines, read, n, p).None?
    ensures OverridesBy(lines, read, m, p).None?
  {
    if n < m {
      OverridesFailFrom(lines, read, n, m - 1, p);
    }
  }

  // -------------------------------------------------------------------------- what it keeps

  predicate AllowedOnly(overrides: Values, fields: seq<TargetField>, f: Floats)
  {
    && Allowed(overrides, fields, f)
    && forall k :: k in overrides ==> exists i :: 0 <= i < |fields| && fields[i].key == k
  }

  lemma AddKeepsAllowed(before: Values, fields: seq<TargetField>, a: Assignment, p: Parsers)
    requires FieldsWf(fields) && AllowedOnly(before, fields, p.floats) && (a.Assigned? ==> a.field in fields)
    requires AddOverride(before, a, p).Some?
    ensures AllowedOnly(AddOverride(before, a, p).value, fields, p.floats)
  {
    if a.Assigned? {
      var k :| 0 <= k < |fields| && fields[k] == a.field;
      forall i | 0 <= i < |fields| && fields[i].key == a.field.key
        ensures fields[i] == a.field
      {
        assert i < k ==> Apart(fields[i], fields[k]);
        assert k < i ==> Apart(fields[k], fields[i]);
      }
    }
  }

  lemma {:induction false} OverridesStayAllowed(lines: seq<string>, read: AssignmentReader, fields: seq<TargetField>, n: nat,
                                                p: Parsers)
    requires n <= |lines| && FieldsWf(fields) && OverridesBy(lines, read, n, p).Some?
    requires forall line :: read(line).Assigned? ==> read(line).field in fields
    ensures AllowedOnly(OverridesBy(lines, read, n, p).value, fields, p.floats)
  {
    if n > 0 {
      OverridesStayAllowed(lines, read, fields, n - 1, p);
      AddKeepsAllowed(OverridesBy(lines, read, n - 1, p).value, fields, read(lines[n - 1]), p);
    }
  }

  /** Whatever else a profile holds, its overrides are of allowed keys and may be printed. */
  lemma OverridesAreAllowed(lines: seq<string>, fields: seq<TargetField>, p: Parsers)
    requires FieldsWf(fields) && Overrides(lines, fields, p).Some?
    ensures AllowedOnly(Overrides(lines, fields, p).value, fields, p.floats)
  {
    OverridesStayAllowed(lines, ReaderFor(fields), fields, |lines|, p);
  }

  /** The integer parser reads what `str` prints. */
  ghost predicate ParsersRead(p: Parsers)
  {
    forall n: nat :: n > 0 ==> p.parseInt(Decimal(n)) == Some(n)
  }

  /** Parsers that read what is printed. */
  function WholeParsers(): Parsers
  {
    Parsers(s => if IsCanonical(s) then Some(Number(s)) else None, WholeFloats())
  }

  lemma WholeParsersRead()
    ensures ParsersRead(WholeParsers()) && FloatsPrint(WholeParsers().floats)
  {
    WholeFloatsPrint();
    forall n: nat | n > 0
      ensures WholeParsers().parseInt(Decimal(n)) == Some(n)
    {
      DecimalIsCanonical(n);
    }
  }

  lemma StripOfClean(s: string)
    requires Clean(s)
    ensures Strip(s) == s && Strip(s + "\n") == s && Unquoted(s) == s
  {
    var ended := s + "\n";
    assert ended[0] == s[0] && LStrip(ended) == ended && LStrip(s) == s;
    assert ended[|ended| - 1] == '\n' && ended[..|ended| - 1] == s;
  }

  lemma {:induction false} IndexOfField(fields: seq<TargetField>, i: nat)
    requires i < |fields| && forall j :: 0 <= j < i ==> fields[j].key != fields[i].key
    ensures IndexOf(fields, fields[i].key) == i
  {
    if i > 0 {
      IndexOfField(fields[1..], i - 1);
    }
  }

  /** A printed line, read leniently. */
  lemma PrintedLineAssigns(fields: seq<TargetField>, i: nat, raw: string)
    requires FieldsWf(fields) && i < |fields| && Clean(raw)
    ensures ReadLine(LineOf(fields[i], raw) + "\n", fields) == Assigned(fields[i], raw)
  {
    var key := fields[i].key;
    var line := LineOf(fields[i], raw) + "\n";
    assert line == key + "=" + (raw + "\n");
    FirstEqualsIs(key, raw + "\n");
    assert line[..|key|] == key && line[|key| + 1..] == raw + "\n";
    assert line[0] == key[0];
    NoSpaceInLine(key, raw);
    StripOfClean(key);
    StripOfClean(raw);
    forall j | 0 <= j < i
      ensures fields[j].key != key
    {
      assert Apart(fields[j], fields[i]);
    }
    IndexOfField(fields, i);
  }

  lemma NoSpaceInLine(key: string, raw: string)
    requires Clean(key) && Clean(raw)
    ensures !StartsWith(key + "=" + raw + "\n", "export ")
  {
    var line := key + "=" + raw + "\n";
    assert "export "[6] == ' ';
    assert forall i :: 0 <= i < |line| ==> line[i] != ' ';
  }

  /** The lines of a file with this text. */
  function FileLines(lines: seq<string>): seq<string>
  {
    seq(|lines|, i requires 0 <= i < |lines| => lines[i] + "\n")
  }

  lemma PrintedValueReads(v: Value, field: TargetField, p: Parsers)
    requires FloatsPrint(p.floats) && ParsersRead(p) && Fits(v, field.float, p.floats)
    ensures Canonical(v, field.float, p.floats).Some? && Clean(Canonical(v, field.float, p.floats).value)
    ensures PositiveValue(Canonical(v, field.float, p.floats).value, field.float, p) == Some(v)
  {
    CanonicalRoundTrip(v, field.float, p.floats);
  }

  /** The line assigns the value to the field. */
  predicate Assigns(a: Assignment, field: TargetField, v: Value, p: Parsers)
  {
    a.Assigned? && a.field == field && PositiveValue(a.text, field.float, p) == Some(v)
  }

  lemma {:induction false} AssignedOverrides(lines: seq<string>, read: AssignmentReader, values: Values,
                                             fields: seq<TargetField>, n: nat, p: Parsers)
    requires n <= |lines| == |fields| && FreshKeys(fields)
    requires forall i :: 0 <= i < |fields| ==>
               fields[i].key in values && Assigns(read(lines[i]), fields[i], values[fields[i].key], p)
    ensures var r := OverridesBy(lines, read, n, p);
            r.Some? && r.value.Keys == KeysOf(fields, n) && forall k :: k in r.value ==> k in values && r.value[k] == values[k]
  {
    if n > 0 {
      AssignedOverrides(lines, read, values, fields, n - 1, p);
      assert FreshKey(fields, n - 1);
    }
  }

  /** A snapshot is itself a profile: read as one, it overrides exactly the values it was printed from. */
  lemma SnapshotIsProfile(values: Values, fields: seq<TargetField>, p: Parsers)
    requires FieldsWf(fields) && FloatsPrint(p.floats) && ParsersRead(p) && Complete(values, fields, p.floats)
    ensures var lines := Lines(values, fields, |fields|, PrinterWith(p.floats));
            lines.Some? && |lines.value| == |fields|
            && Overrides(FileLines(lines.value), fields, p) == Some(values)
  {
    LinesArePrinted(values, fields, |fields|, p.floats);
    var lines := Lines(values, fields, |fields|, PrinterWith(p.floats)).value;
    forall i | 0 <= i < |fields|
      ensures Assigns(ReaderFor(fields)(FileLines(lines)[i]), fields[i], values[fields[i].key], p)
    {
      PrintedValueReads(values[fields[i].key], fields[i], p);
      PrintedLineAssigns(fields, i, Canonical(values[fields[i].key], fields[i].float, p.floats).value);
    }
    KeysAreFresh(fields);
    AssignedOverrides(FileLines(lines), ReaderFor(fields), values, fields, |fields|, p);
    SameEntries(Overrides(FileLines(lines), fields, p).value, values);
  }

  /** Deploying from the snapshot of a profile targets the same manifest as deploying from the profile. */
  lemma SnapshotLoadsSameManifest(profile: seq<string>, defaults: Streams, fields: seq<TargetField>, p: Parsers)
    requires FieldsWf(fields) && FloatsPrint(p.floats) && ParsersRead(p) && Overridable(defaults, fields, p.floats)
    requires Overrides(profile, fields, p).Some?
    ensures var loaded := Load(defaults, Overrides(profile, fields, p).value, fields, |fields|);
            var values := ReadValues(loaded, fields, p.floats);
            values.Some? && Complete(values.value, fields, p.floats) && Load(defaults, values.value, fields, |fields|) == loaded
  {
    OverridesAreAllowed(profile, fields, p);
    var overrides := Overrides(profile, fields, p).value;
    RebuildInvertsRead(defaults, overrides, fields, p.floats);
    var values := ReadValues(Load(defaults, overrides, fields, |fields|), fields, p.floats).value;
    RebuiltFromLoaded(defaults, values, values, fields, p.floats);
  }
}
