/**
 * The dataset exporter: validation of an export request, the format name and
 * file extension, the output path, and the hand-written XML writer with its
 * entity escaping. The pandas-backed writers (JSON, CSV, XLSX, HTML) and the
 * file system are outside the model.
 */
module DatasetExporter {
  import opened PyRuntime

  // ---------------------------------------------------------------------------
  // Escaping
  // ---------------------------------------------------------------------------

  /** The five characters the XML writer escapes. */
  predicate IsSpecial(c: char) {
    c == '&' || c == '<' || c == '>' || c == '"' || c == '\''
  }

  /**
   * `escape`: `&` first, then `<`, `>`, `"` and `'`, each replaced by its
   * entity. No markup character survives, and text without any of the five
   * comes back unchanged.
   */
  function Escape(text: string): string {
    var amp := Replace(text, '&', "&amp;");
    var lt := Replace(amp, '<', "&lt;");
    var gt := Replace(lt, '>', "&gt;");
    var quot := Replace(gt, '"', "&quot;");
    Replace(quot, '\'', "&apos;")
  }

  /** No markup character survives escaping: each replacement removes its own and adds none of the others. */
  lemma EscapeNoMarkup(text: string)
    ensures var r := Escape(text);
            '<' !in r && '>' !in r && '"' !in r && '\'' !in r
  {
    var amp := Replace(text, '&', "&amp;");
    var lt := Replace(amp, '<', "&lt;");
    var gt := Replace(lt, '>', "&gt;");
    var quot := Replace(gt, '"', "&quot;");
    ReplaceRemoves(amp, '<', "&lt;");
    ReplaceRemoves(lt, '>', "&gt;");
    ReplaceKeepsAbsent(lt, '>', "&gt;", '<');
    ReplaceRemoves(gt, '"', "&quot;");
    ReplaceKeepsAbsent(gt, '"', "&quot;", '<');
    ReplaceKeepsAbsent(gt, '"', "&quot;", '>');
    ReplaceRemoves(quot, '\'', "&apos;");
    ReplaceKeepsAbsent(quot, '\'', "&apos;", '<');
    ReplaceKeepsAbsent(quot, '\'', "&apos;", '>');
    ReplaceKeepsAbsent(quot, '\'', "&apos;", '"');
  }

  /** Text without any of the five characters comes back unchanged. */
  lemma EscapePlain(text: string)
    requires forall i :: 0 <= i < |text| ==> !IsSpecial(text[i])
    ensures Escape(text) == text
  {
    ReplaceUnchanged(text, '&', "&amp;");
    ReplaceUnchanged(text, '<', "&lt;");
    ReplaceUnchanged(text, '>', "&gt;");
    ReplaceUnchanged(text, '"', "&quot;");
    ReplaceUnchanged(text, '\'', "&apos;");
  }

  /** Escaping never introduces a line break. */
  lemma EscapeNoBreaks(text: string)
    requires '\n' !in text
    ensures '\n' !in Escape(text)
  {
    var amp := Replace(text, '&', "&amp;");
    var lt := Replace(amp, '<', "&lt;");
    var gt := Replace(lt, '>', "&gt;");
    var quot := Replace(gt, '"', "&quot;");
    ReplaceKeepsAbsent(text, '&', "&amp;", '\n');
    ReplaceKeepsAbsent(amp, '<', "&lt;", '\n');
    ReplaceKeepsAbsent(lt, '>', "&gt;", '\n');
    ReplaceKeepsAbsent(gt, '"', "&quot;", '\n');
    ReplaceKeepsAbsent(quot, '\'', "&apos;", '\n');
  }

  /** The escape of one character: its entity, or the character itself. */
  function EscapeChar(c: char): string {
    if c == '&' then "&amp;"
    else if c == '<' then "&lt;"
    else if c == '>' then "&gt;"
    else if c == '"' then "&quot;"
    else if c == '\'' then "&apos;"
    else [c]
  }

  /** Escaping works piecewise: the chained replacements never see across a split. */
  lemma EscapeAppend(a: string, b: string)
    ensures Escape(a + b) == Escape(a) + Escape(b)
  {
    var a1, b1 := Replace(a, '&', "&amp;"), Replace(b, '&', "&amp;");
    ReplaceAppend(a, b, '&', "&amp;");
    var a2, b2 := Replace(a1, '<', "&lt;"), Replace(b1, '<', "&lt;");
    ReplaceAppend(a1, b1, '<', "&lt;");
    var a3, b3 := Replace(a2, '>', "&gt;"), Replace(b2, '>', "&gt;");
    ReplaceAppend(a2, b2, '>', "&gt;");
    var a4, b4 := Replace(a3, '"', "&quot;"), Replace(b3, '"', "&quot;");
    ReplaceAppend(a3, b3, '"', "&quot;");
    ReplaceAppend(a4, b4, '\'', "&apos;");
  }

  /** Replacing in a one-character string. */
  lemma ReplaceSingle(c: char, target: char, replacement: string)
    ensures Replace([c], target, replacement) == if c == target then replacement else [c]
  {
    assert [c][1..] == [];
    var head := if c == target then replacement else [c];
    assert head + [] == head;
  }

  /** The last replacements leave an entity alone when it holds none of their targets. */
  lemma EscapeTail(e: string, from: nat)
    requires 1 <= from <= 4
    requires from <= 1 ==> '<' !in e
    requires from <= 2 ==> '>' !in e
    requires from <= 3 ==> '"' !in e
    requires '\'' !in e
    ensures from == 1 ==> Replace(Replace(Replace(Replace(e, '<', "&lt;"), '>', "&gt;"), '"', "&quot;"), '\'', "&apos;") == e
    ensures from == 2 ==> Replace(Replace(Replace(e, '>', "&gt;"), '"', "&quot;"), '\'', "&apos;") == e
    ensures from == 3 ==> Replace(Replace(e, '"', "&quot;"), '\'', "&apos;") == e
    ensures from == 4 ==> Replace(e, '\'', "&apos;") == e
  {
    if from <= 1 {
      ReplaceUnchanged(e, '<', "&lt;");
    }
    if from <= 2 {
      ReplaceUnchanged(e, '>', "&gt;");
    }
    if from <= 3 {
      ReplaceUnchanged(e, '"', "&quot;");
    }
    ReplaceUnchanged(e, '\'', "&apos;");
  }

  /** One character escapes to its own entity: the earlier replacements' output is never re-escaped. */
  lemma EscapeSingle(c: char)
    ensures Escape([c]) == EscapeChar(c)
  {
    ReplaceSingle(c, '&', "&amp;");
    if c == '&' {
      EscapeTail("&amp;", 1);
    } else {
      ReplaceSingle(c, '<', "&lt;");
      if c == '<' {
        EscapeTail("&lt;", 2);
      } else {
        ReplaceSingle(c, '>', "&gt;");
        if c == '>' {
          EscapeTail("&gt;", 3);
        } else {
          ReplaceSingle(c, '"', "&quot;");
          if c == '"' {
            EscapeTail("&quot;", 4);
          } else {
            ReplaceSingle(c, '\'', "&apos;");
          }
        }
      }
    }
  }

  /** The chained replacements equal escaping character by character. */
  lemma EscapeCharwise(s: string)
    requires s != []
    ensures Escape(s) == EscapeChar(s[0]) + Escape(s[1..])
  {
    assert s == [s[0]] + s[1..];
    EscapeAppend([s[0]], s[1..]);
    EscapeSingle(s[0]);
  }

  /** Decoding of the five entities `escape` produces; any other text is kept. */
  function Unescape(s: string): string {
    if s == [] then []
    else if "&amp;" <= s then ['&'] + Unescape(s[5..])
    else if "&lt;" <= s then ['<'] + Unescape(s[4..])
    else if "&gt;" <= s then ['>'] + Unescape(s[4..])
    else if "&quot;" <= s then ['"'] + Unescape(s[6..])
    else if "&apos;" <= s then ['\''] + Unescape(s[6..])
    else [s[0]] + Unescape(s[1..])
  }

  /** A string that differs from `p` at a position both share does not start with `p`. */
  lemma NotPrefix(p: string, s: string, k: nat)
    requires k < |p| && k < |s| && p[k] != s[k]
    ensures !(p <= s)
  {
  }

  /** Decoding one escaped character in front of more text gives that character back. */
  lemma UnescapeChar(c: char, t: string)
    ensures Unescape(EscapeChar(c) + t) == [c] + Unescape(t)
  {
    var e := EscapeChar(c);
    var s := e + t;
    assert s[|e|..] == t;
    if !IsSpecial(c) {
      assert s[0] == c && s[1..] == t;
      NotPrefix("&amp;", s, 0);
      NotPrefix("&lt;", s, 0);
      NotPrefix("&gt;", s, 0);
      NotPrefix("&quot;", s, 0);
      NotPrefix("&apos;", s, 0);
    } else {
      assert s[0] == '&' && s[1] == e[1] && e <= s;
      if c == '<' {
        NotPrefix("&amp;", s, 1);
      } else if c == '>' {
        NotPrefix("&amp;", s, 1);
        NotPrefix("&lt;", s, 1);
      } else if c == '"' {
        NotPrefix("&amp;", s, 1);
        NotPrefix("&lt;", s, 1);
        NotPrefix("&gt;", s, 1);
      } else if c == '\'' {
        assert s[2] == e[2];
        NotPrefix("&amp;", s, 2);
        NotPrefix("&lt;", s, 1);
        NotPrefix("&gt;", s, 1);
        NotPrefix("&quot;", s, 1);
      }
    }
  }

  /** Escaping loses nothing: decoding the escaped text gives the original. */
  lemma {:induction false} UnescapeEscape(s: string)
    ensures Unescape(Escape(s)) == s
  {
    if s != [] {
      EscapeCharwise(s);
      UnescapeEscape(s[1..]);
      UnescapeChar(s[0], Escape(s[1..]));
    }
  }

  // ---------------------------------------------------------------------------
  // The XML writer
  // ---------------------------------------------------------------------------

  /**
   * `json.dumps(value, ensure_ascii=False)` for dicts and lists, and `str`
   * of a float: Python library behaviour the model takes as given.
   */
  datatype Formatter = Formatter(dumps: Json -> string, floatText: bool -> string)

  /** `str(n)` for an int. */
  function IntText(i: int): (s: string)
    ensures i >= 0 ==> IsDigits(s) && DecimalValue(s) == i && (s[0] == '0' ==> i == 0) && (|s| > 1 ==> s[0] != '0')
    ensures i == 0 ==> s == "0"
    ensures i < 0 ==> |s| >= 2 && s[0] == '-' && IsDigits(s[1..]) && DecimalValue(s[1..]) == -i && s[1] != '0'
  {
    if i < 0 then
      var digits := DecimalString(-i);
      DecimalRoundTrip(-i);
      DecimalNoLeadingZero(-i);
      assert ("-" + digits)[1..] == digits;
      "-" + digits
    else
      DecimalRoundTrip(i);
      DecimalNoLeadingZero(i);
      DecimalString(i)
  }

  /** The text of a non-None value: dicts and lists as JSON, everything else through `str`. */
  function ValueText(value: Json, fmt: Formatter): string {
    match value
    case JNull => "None"
    case JBool(b) => if b then "True" else "False"
    case JInt(i) => IntText(i)
    case JFloat(z) => fmt.floatText(z)
    case JStr(s) => s
    case JList(_) => fmt.dumps(value)
    case JMap(_) => fmt.dumps(value)
  }

  const Declaration := "<?xml version=\"1.0\" encoding=\"UTF-8\"?>"
  const UsersOpen := "<users>"
  const UsersClose := "</users>"
  const UserOpen := "  <user>"
  const UserClose := "  </user>"

  /** One field element: the key as the tag name, the escaped text as content. */
  function FieldElement(key: string, value: Json, fmt: Formatter): string {
    "    <" + key + ">" + Escape(ValueText(value, fmt)) + "</" + key + ">"
  }

  /** The lines of one record's fields, in item order; a None value writes nothing. */
  function FieldLines(record: Dict, fmt: Formatter): seq<string> {
    if record == [] then []
    else
      var (key, value) := record[|record| - 1];
      FieldLines(record[..|record| - 1], fmt)
      + (if value.JNull? then [] else [FieldElement(key, value, fmt)])
  }

  function RecordLines(record: Dict, fmt: Formatter): seq<string> {
    [UserOpen] + FieldLines(record, fmt) + [UserClose]
  }

  function BodyLines(records: seq<Dict>, fmt: Formatter): seq<string> {
    if records == [] then []
    else BodyLines(records[..|records| - 1], fmt) + RecordLines(records[|records| - 1], fmt)
  }

  /** The lines `_export_xml` builds: declaration, root, one block per record, closing root. */
  function XmlLines(records: seq<Dict>, fmt: Formatter): seq<string> {
    [Declaration, UsersOpen] + BodyLines(records, fmt) + [UsersClose]
  }

  /** The file contents: the lines joined with newlines. */
  function XmlDocument(records: seq<Dict>, fmt: Formatter): string {
    Join(XmlLines(records, fmt), "\n")
  }

  /** One more item appends its element, unless its value is None. */
  lemma FieldLinesSnoc(record: Dict, j: nat, fmt: Formatter)
    requires j < |record|
    ensures FieldLines(record[..j + 1], fmt)
            == FieldLines(record[..j], fmt) + (if record[j].1.JNull? then [] else [FieldElement(record[j].0, record[j].1, fmt)])
  {
    assert record[..j + 1][..j] == record[..j];
  }

  /** One more record appends its block. */
  lemma BodyLinesSnoc(records: seq<Dict>, i: nat, fmt: Formatter)
    requires i < |records|
    ensures BodyLines(records[..i + 1], fmt) == BodyLines(records[..i], fmt) + RecordLines(records[i], fmt)
  {
    assert records[..i + 1][..i] == records[..i];
  }

  /**
   * `_export_xml` up to the write: the nested loops over records and items
   * building `lines`, then the join.
   */
  method ExportXml(records: seq<Dict>, fmt: Formatter) returns (document: string)
    ensures document == XmlDocument(records, fmt)
  {
    var lines := [Declaration, UsersOpen];
    for i := 0 to |records|
      invariant lines == [Declaration, UsersOpen] + BodyLines(records[..i], fmt)
    {
      var record := records[i];
      ghost var before := lines;
      lines := lines + [UserOpen];
      for j := 0 to |record|
        invariant lines == (before + [UserOpen]) + FieldLines(record[..j], fmt)
      {
        var (key, value) := record[j];
        FieldLinesSnoc(record, j, fmt);
        if value.JNull? {
          assert FieldLines(record[..j], fmt) + [] == FieldLines(record[..j], fmt);
          continue;
        }
        ConcatAssoc(before + [UserOpen], FieldLines(record[..j], fmt), [FieldElement(key, value, fmt)]);
        lines := lines + [FieldElement(key, value, fmt)];
      }
      assert record[..|record|] == record;
      ghost var fields := FieldLines(record, fmt);
      ConcatAssoc(before + [UserOpen], fields, [UserClose]);
      ConcatAssoc(before, [UserOpen], fields + [UserClose]);
      ConcatAssoc([UserOpen], fields, [UserClose]);
      ConcatAssoc([Declaration, UsersOpen], BodyLines(records[..i], fmt), RecordLines(record, fmt));
      lines := lines + [UserClose];
      BodyLinesSnoc(records, i, fmt);
    }
    assert records[..|records|] == records;
    lines := lines + [UsersClose];
    document := Join(lines, "\n");
  }

  /** How many times `line` occurs in `lines`. */
  function Count(lines: seq<string>, line: string): nat {
    if lines == [] then 0
    else Count(lines[..|lines| - 1], line) + (if lines[|lines| - 1] == line then 1 else 0)
  }

  lemma {:induction false} CountAppend(a: seq<string>, b: seq<string>, line: string)
    ensures Count(a + b, line) == Count(a, line) + Count(b, line)
    decreases |b|
  {
    if b == [] {
      assert a + b == a;
    } else {
      CountAppend(a, b[..|b| - 1], line);
      assert (a + b)[..|a + b| - 1] == a + b[..|b| - 1];
    }
  }

  lemma CountSingle(x: string, line: string)
    ensures Count([x], line) == if x == line then 1 else 0
  {
    assert [x][..0] == [];
  }

  lemma {:induction false} CountAbsent(lines: seq<string>, line: string)
    requires forall i :: 0 <= i < |lines| ==> lines[i] != line
    ensures Count(lines, line) == 0
    decreases |lines|
  {
    if lines != [] {
      CountAbsent(lines[..|lines| - 1], line);
    }
  }

  /** Lines indented as field elements are. */
  predicate Indented(lines: seq<string>) {
    forall i :: 0 <= i < |lines| ==> |lines[i]| >= 5 && lines[i][..5] == "    <"
  }

  lemma {:induction false} FieldLinesIndented(record: Dict, fmt: Formatter)
    ensures Indented(FieldLines(record, fmt))
    decreases |record|
  {
    if record != [] {
      FieldLinesIndented(record[..|record| - 1], fmt);
      var (key, value) := record[|record| - 1];
      var earlier := FieldLines(record[..|record| - 1], fmt);
      var last := if value.JNull? then [] else [FieldElement(key, value, fmt)];
      forall i | 0 <= i < |earlier + last|
        ensures |(earlier + last)[i]| >= 5 && (earlier + last)[i][..5] == "    <"
      {
        if i < |earlier| {
          assert (earlier + last)[i] == earlier[i];
        }
      }
    }
  }

  /** Tags of the document skeleton, none of which a field line can be. */
  predicate IsSkeletonLine(line: string) {
    line == UserOpen || line == UserClose || line == UsersOpen
  }

  /** Field lines are indented deeper than the record tags, so they are never part of the skeleton. */
  lemma FieldLinesUntagged(record: Dict, fmt: Formatter, line: string)
    requires IsSkeletonLine(line)
    ensures Count(FieldLines(record, fmt), line) == 0
  {
    FieldLinesIndented(record, fmt);
    var lines := FieldLines(record, fmt);
    assert line[2] != ' ';
    assert "    <"[2] == ' ';
    forall i | 0 <= i < |lines|
      ensures lines[i] != line
    {
      assert lines[i][..5][2] == lines[i][2];
    }
    CountAbsent(lines, line);
  }

  /** A record's block opens one `<user>` element and closes one. */
  lemma RecordLinesTags(record: Dict, fmt: Formatter, line: string)
    requires IsSkeletonLine(line)
    ensures Count(RecordLines(record, fmt), line) == if line == UsersOpen then 0 else 1
  {
    var fields := FieldLines(record, fmt);
    FieldLinesUntagged(record, fmt, line);
    CountAppend([UserOpen], fields, line);
    CountAppend([UserOpen] + fields, [UserClose], line);
    CountSingle(UserOpen, line);
    CountSingle(UserClose, line);
  }

  /** Each record opens exactly one `<user>` element and closes exactly one; none opens the root. */
  lemma {:induction false} BodyLinesTags(records: seq<Dict>, fmt: Formatter, line: string)
    requires IsSkeletonLine(line)
    ensures Count(BodyLines(records, fmt), line) == if line == UsersOpen then 0 else |records|
    decreases |records|
  {
    if records != [] {
      var front := records[..|records| - 1];
      var record := records[|records| - 1];
      BodyLinesTags(front, fmt, line);
      RecordLinesTags(record, fmt, line);
      CountAppend(BodyLines(front, fmt), RecordLines(record, fmt), line);
    }
  }

  /** The document holds one `<user>` element per record, each closed, and a single root. */
  lemma XmlUserCount(records: seq<Dict>, fmt: Formatter)
    ensures Count(XmlLines(records, fmt), UserOpen) == |records|
    ensures Count(XmlLines(records, fmt), UserClose) == |records|
    ensures Count(XmlLines(records, fmt), UsersOpen) == 1
  {
    XmlSkeletonCount(records, fmt, UserOpen);
    XmlSkeletonCount(records, fmt, UserClose);
    XmlSkeletonCount(records, fmt, UsersOpen);
  }

  lemma XmlSkeletonCount(records: seq<Dict>, fmt: Formatter, line: string)
    requires IsSkeletonLine(line)
    ensures Count(XmlLines(records, fmt), line) == if line == UsersOpen then 1 else |records|
  {
    var head := [Declaration, UsersOpen];
    var body := BodyLines(records, fmt);
    BodyLinesTags(records, fmt, line);
    CountAppend(head, body, line);
    CountAppend(head + body, [UsersClose], line);
    CountAppend([Declaration], [UsersOpen], line);
    assert [Declaration] + [UsersOpen] == head;
    CountSingle(Declaration, line);
    CountSingle(UsersOpen, line);
    CountSingle(UsersClose, line);
    assert Declaration[1] == '?' && line[1] != '?';
    assert UsersClose[1] == '/' && line[1] != '/';
  }

  /** Keys and value texts free of line breaks. */
  predicate SingleLine(records: seq<Dict>, fmt: Formatter) {
    forall i, k :: 0 <= i < |records| && 0 <= k < |records[i]| ==>
      '\n' !in records[i][k].0 && '\n' !in ValueText(records[i][k].1, fmt)
  }

  predicate NoBreaks(lines: seq<string>) {
    forall i :: 0 <= i < |lines| ==> '\n' !in lines[i]
  }

  lemma FieldElementNoBreaks(key: string, value: Json, fmt: Formatter)
    requires '\n' !in key && '\n' !in ValueText(value, fmt)
    ensures '\n' !in FieldElement(key, value, fmt)
  {
    EscapeNoBreaks(ValueText(value, fmt));
  }

  lemma {:induction false} FieldLinesNoBreaks(record: Dict, fmt: Formatter)
    requires forall k :: 0 <= k < |record| ==> '\n' !in record[k].0 && '\n' !in ValueText(record[k].1, fmt)
    ensures NoBreaks(FieldLines(record, fmt))
    decreases |record|
  {
    if record != [] {
      var front := record[..|record| - 1];
      assert forall k :: 0 <= k < |front| ==> front[k] == record[k];
      FieldLinesNoBreaks(front, fmt);
      var (key, value) := record[|record| - 1];
      var last := if value.JNull? then [] else [FieldElement(key, value, fmt)];
      if !value.JNull? {
        FieldElementNoBreaks(key, value, fmt);
      }
      NoBreaksAppend(FieldLines(front, fmt), last);
    }
  }

  lemma {:induction false} BodyLinesNoBreaks(records: seq<Dict>, fmt: Formatter)
    requires SingleLine(records, fmt)
    ensures NoBreaks(BodyLines(records, fmt))
    decreases |records|
  {
    if records != [] {
      var front := records[..|records| - 1];
      assert SingleLine(front, fmt) by {
        assert forall i :: 0 <= i < |front| ==> front[i] == records[i];
      }
      BodyLinesNoBreaks(front, fmt);
      var record := records[|records| - 1];
      FieldLinesNoBreaks(record, fmt);
      var fields := FieldLines(record, fmt);
      NoBreaksAppend([UserOpen], fields);
      NoBreaksAppend([UserOpen] + fields, [UserClose]);
      NoBreaksAppend(BodyLines(front, fmt), RecordLines(record, fmt));
    }
  }

  lemma NoBreaksAppend(a: seq<string>, b: seq<string>)
    requires NoBreaks(a) && NoBreaks(b)
    ensures NoBreaks(a + b)
  {
    forall i | 0 <= i < |a + b|
      ensures '\n' !in (a + b)[i]
    {
      if i >= |a| {
        assert (a + b)[i] == b[i - |a|];
      }
    }
  }

  /**
   * When no key or value text holds a line break, splitting the written file
   * on newlines gives back exactly the lines built.
   */
  lemma XmlDocumentLines(records: seq<Dict>, fmt: Formatter)
    requires SingleLine(records, fmt)
    ensures Split(XmlDocument(records, fmt), '\n') == XmlLines(records, fmt)
  {
    BodyLinesNoBreaks(records, fmt);
    var head := [Declaration, UsersOpen];
    var body := BodyLines(records, fmt);
    assert NoBreaks(head) && NoBreaks([UsersClose]);
    NoBreaksAppend(head, body);
    NoBreaksAppend(head + body, [UsersClose]);
    var lines := XmlLines(records, fmt);
    assert NoBreaks(lines);
    SplitJoin(lines, '\n');
  }

  // ---------------------------------------------------------------------------
  // Export requests
  // ---------------------------------------------------------------------------

  datatype ExportFormat = JsonFormat | CsvFormat | XlsxFormat | HtmlFormat | XmlFormat

  /** The normalised format name. */
  function FormatName(f: ExportFormat): string {
    match f
    case JsonFormat => "json"
    case CsvFormat => "csv"
    case XlsxFormat => "xlsx"
    case HtmlFormat => "html"
    case XmlFormat => "xml"
  }

  /** `extension_map`: every supported format has its own extension. */
  function Extension(f: ExportFormat): (ext: string)
    ensures ext == "." + FormatName(f)
  {
    match f
    case JsonFormat => ".json"
    case CsvFormat => ".csv"
    case XlsxFormat => ".xlsx"
    case HtmlFormat => ".html"
    case XmlFormat => ".xml"
  }

  /** `fmt.lower()` checked against the supported names. */
  function ParseFormat(fmt: string): (r: Option<ExportFormat>)
    ensures r.Some? ==> FormatName(r.value) == Lower(fmt)
  {
    var name := Lower(fmt);
    if name == "json" then Some(JsonFormat)
    else if name == "csv" then Some(CsvFormat)
    else if name == "xlsx" then Some(XlsxFormat)
    else if name == "html" then Some(HtmlFormat)
    else if name == "xml" then Some(XmlFormat)
    else None
  }

  /** A format name is accepted exactly when its lower-case form names a format. */
  lemma ParseFormatComplete(fmt: string)
    ensures ParseFormat(fmt).Some? <==> exists f :: FormatName(f) == Lower(fmt)
  {
    if exists f :: FormatName(f) == Lower(fmt) {
      var f :| FormatName(f) == Lower(fmt);
      assert ParseFormat(fmt).Some? by {
        match f
        case JsonFormat =>
        case CsvFormat =>
        case XlsxFormat =>
        case HtmlFormat =>
        case XmlFormat =>
      }
    }
  }

  /** Each format's own name reads back as that format, in any letter case. */
  lemma ParseFormatName(f: ExportFormat)
    ensures ParseFormat(FormatName(f)) == Some(f)
  {
    assert Lower(FormatName(f)) == FormatName(f);
  }

  /** Format names are case-insensitive. */
  lemma ParseFormatCaseInsensitive(fmt: string)
    ensures ParseFormat(Lower(fmt)) == ParseFormat(fmt)
  {
    LowerIdempotent(fmt);
  }

  /** Extensions are distinct, so the extension identifies the format. */
  lemma ExtensionInjective(f: ExportFormat, g: ExportFormat)
    ensures Extension(f) == Extension(g) ==> f == g
  {
  }

  /** The exported file: its format, its absolute path and the records written. */
  datatype ExportTarget = ExportTarget(format: ExportFormat, path: string, records: seq<Dict>)

  /** `isinstance(records, list) and all(isinstance(r, dict) for r in records)`. */
  predicate IsRecordList(records: Json) {
    records.JList? && forall i :: 0 <= i < |records.items| ==> records.items[i].JMap?
  }

  function RecordDicts(records: Json): (r: seq<Dict>)
    requires IsRecordList(records)
    ensures |r| == |records.items|
    ensures forall i :: 0 <= i < |r| ==> records.items[i] == JMap(r[i])
  {
    seq(|records.items|, i requires 0 <= i < |records.items| => records.items[i].entries)
  }

  /** `os.path.abspath` relative to the working directory, without `normpath`. */
  function AbsPath(cwd: string, path: string): (r: string)
    ensures path != [] && path[0] == '/' ==> r == path
  {
    if path != [] && path[0] == '/' then path else PathJoin(cwd, path)
  }

  /**
   * `export` up to the write: check the records, then the format; put the
   * file in the absolute output directory under the base name and the
   * format's extension.
   */
  function Export(records: Json, fmt: string, outputDir: string, baseFilename: string, cwd: string): (r: Result<ExportTarget>)
    ensures !IsRecordList(records) ==> r == Err(ValueError("records must be a list of dictionaries"))
    ensures IsRecordList(records) && ParseFormat(fmt).None?
            ==> r == Err(ValueError("Unsupported export format: " + fmt))
    ensures IsRecordList(records) && ParseFormat(fmt).Some? ==> r.Ok?
    ensures r.Ok? ==> IsRecordList(records) && ParseFormat(fmt) == Some(r.value.format)
                      && r.value.records == RecordDicts(records)
  {
    if !IsRecordList(records) then Err(ValueError("records must be a list of dictionaries"))
    else match ParseFormat(fmt)
      case None => Err(ValueError("Unsupported export format: " + fmt))
      case Some(format) =>
        var directory := AbsPath(cwd, outputDir);
        var path := PathJoin(directory, baseFilename + Extension(format));
        Ok(ExportTarget(format, AbsPath(cwd, path), RecordDicts(records)))
  }

  /**
   * A successful export writes under the output directory, made absolute, a
   * file whose name is the base name, a dot and the lower-cased format.
   */
  lemma ExportPath(records: Json, fmt: string, outputDir: string, baseFilename: string, cwd: string)
    requires cwd != [] && cwd[0] == '/'
    requires baseFilename != [] && baseFilename[0] != '/'
    requires Export(records, fmt, outputDir, baseFilename, cwd).Ok?
    ensures var target := Export(records, fmt, outputDir, baseFilename, cwd).value;
            var directory := if outputDir != [] && outputDir[0] == '/' then outputDir else PathJoin(cwd, outputDir);
            && directory <= target.path
            && target.path[|target.path| - |baseFilename| - 1 - |fmt|..] == baseFilename + "." + Lower(fmt)
            && target.records == RecordDicts(records)
            && directory != []
            && target.path == directory + (if directory[|directory| - 1] == '/' then "" else "/")
                              + baseFilename + "." + Lower(fmt)
  {
    ExportTargetPath(records, fmt, outputDir, baseFilename, cwd);
    AbsoluteDirectory(cwd, outputDir);
    JoinFileName(AbsPath(cwd, outputDir), baseFilename, Lower(fmt));
  }

  /** A successful `export` writes the list's dicts to the file name joined onto the absolute output directory. */
  lemma ExportTargetPath(records: Json, fmt: string, outputDir: string, baseFilename: string, cwd: string)
    requires cwd != [] && cwd[0] == '/'
    requires baseFilename != [] && baseFilename[0] != '/'
    requires Export(records, fmt, outputDir, baseFilename, cwd).Ok?
    ensures var target := Export(records, fmt, outputDir, baseFilename, cwd).value;
            && target.path == PathJoin(AbsPath(cwd, outputDir), baseFilename + "." + Lower(fmt))
            && target.records == RecordDicts(records)
  {
    var directory := AbsPath(cwd, outputDir);
    AbsoluteDirectory(cwd, outputDir);
    var format := ParseFormat(fmt).value;
    var name := baseFilename + Extension(format);
    assert name == baseFilename + "." + Lower(fmt);
    assert directory <= PathJoin(directory, name);
  }

  /** `os.path.abspath` of the output directory is absolute and is the directory itself when that already is. */
  lemma AbsoluteDirectory(cwd: string, outputDir: string)
    requires cwd != [] && cwd[0] == '/'
    ensures var directory := AbsPath(cwd, outputDir);
            && directory != [] && directory[0] == '/'
            && directory == if outputDir != [] && outputDir[0] == '/' then outputDir else PathJoin(cwd, outputDir)
  {
  }

  /** Joining a directory with a relative `base.ext` puts one `/` between them unless the directory ends in one. */
  lemma JoinFileName(directory: string, baseFilename: string, ext: string)
    requires directory != [] && directory[0] == '/'
    requires baseFilename != [] && baseFilename[0] != '/'
    ensures var path := PathJoin(directory, baseFilename + "." + ext);
            && path[0] == '/'
            && path == directory + (if directory[|directory| - 1] == '/' then "" else "/") + baseFilename + "." + ext
            && directory <= path
            && path[|path| - |baseFilename| - 1 - |ext|..] == baseFilename + "." + ext
  {
    var sep: string := if directory[|directory| - 1] == '/' then "" else "/";
    var name := baseFilename + "." + ext;
    assert PathJoin(directory, name) == directory + sep + name;
    ConcatAssoc(directory + sep, baseFilename + ".", ext);
    ConcatAssoc(directory + sep, baseFilename, ".");
    assert directory <= directory + sep;
  }
}
