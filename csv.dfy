/**
 * The CSV export of src/utils/storage.ts: `csvEscape` and `submissionsToCSV`,
 * with a reader for one comma-separated line that recovers the fields.
 */
module Csv {
  import opened Wrappers
  import opened Types
  import opened Text

  /** The kinds of value `csvEscape` is applied to; `Null` stands for `null` and `undefined`. */
  datatype CsvValue = Null | TextValue(s: string) | Number(n: int) | Boolean(b: bool)

  /** `String(value)`. */
  function Display(v: CsvValue): string
    requires !v.Null?
  {
    match v
    case TextValue(s) => s
    case Number(n) => IntDecimal(n)
    case Boolean(b) => if b then "true" else "false"
  }

  /** The test `/[",\n]/`: a carriage return alone does not call for quotes. */
  predicate NeedsQuotes(s: string)
  {
    '"' in s || ',' in s || '\n' in s
  }

  /** `str.replace(/"/g, '""')`. */
  function DoubleQuotes(s: string): (r: string)
    ensures |r| >= |s|
  {
    if s == [] then ""
    else (if s[0] == '"' then "\"\"" else [s[0]]) + DoubleQuotes(s[1..])
  }

  /** The string part of `csvEscape`. */
  function Quote(s: string): (r: string)
    ensures r == s <==> !NeedsQuotes(s)
    ensures NeedsQuotes(s) ==> r == "\"" + DoubleQuotes(s) + "\""
  {
    if NeedsQuotes(s) then "\"" + DoubleQuotes(s) + "\"" else s
  }

  /** `csvEscape`. */
  function CsvEscape(v: CsvValue): (r: string)
    ensures v.Null? ==> r == ""
    ensures !v.Null? ==> r == Quote(Display(v))
  {
    if v.Null? then "" else Quote(Display(v))
  }

  /** Undoes `DoubleQuotes`: each `""` becomes `"`. */
  function UndoubleQuotes(s: string): string
  {
    if s == [] then ""
    else if |s| >= 2 && s[0] == '"' && s[1] == '"' then "\"" + UndoubleQuotes(s[2..])
    else [s[0]] + UndoubleQuotes(s[1..])
  }

  /** Strips the outer quotes of a quoted field and un-doubles its inner quotes. */
  function Unquote(t: string): string
  {
    if |t| >= 2 && t[0] == '"' && t[|t| - 1] == '"' then UndoubleQuotes(t[1..|t| - 1]) else t
  }

  lemma {:induction false} UndoubleDouble(s: string)
    ensures UndoubleQuotes(DoubleQuotes(s)) == s
  {
    if s != [] {
      UndoubleDouble(s[1..]);
      if s[0] == '"' {
        assert DoubleQuotes(s) == "\"\"" + DoubleQuotes(s[1..]);
        assert DoubleQuotes(s)[2..] == DoubleQuotes(s[1..]);
      } else {
        assert DoubleQuotes(s) == [s[0]] + DoubleQuotes(s[1..]);
        assert DoubleQuotes(s)[1..] == DoubleQuotes(s[1..]);
      }
      assert s == [s[0]] + s[1..];
    }
  }

  /** Stripping the outer quotes and un-doubling recovers what was escaped. */
  lemma UnquoteQuote(s: string)
    ensures Unquote(Quote(s)) == s
  {
    if NeedsQuotes(s) {
      var q := Quote(s);
      assert q[1..|q| - 1] == DoubleQuotes(s);
      UndoubleDouble(s);
    }
  }

  /** The eleven column names, in the order of the header line. */
  const Headers: seq<string> := ["id", "timestamp", "mode", "student_initiated", "issueType", "urgency",
                                 "responsePref", "consentLevel", "crisisFlag", "message", "status"]

  const HeaderLine: string := Join(",", Headers)

  /** The eleven values of one record, in header order; `message ?? ""`. */
  function Fields(s: Submission): (r: seq<CsvValue>)
    ensures |r| == |Headers|
    ensures forall i :: 0 <= i < |r| ==> !r[i].Null?
  {
    [ TextValue(s.id), Number(s.timestamp), TextValue(ModeName(s.mode)), Boolean(s.mode == Anonymous),
      TextValue(s.issueType), TextValue(UrgencyName(s.urgency)), TextValue(ResponsePrefName(s.responsePref)),
      TextValue(ConsentName(s.consentLevel)), Boolean(s.crisisFlag), TextValue(s.message.GetOr("")),
      TextValue(StatusName(s.status)) ]
  }

  function EscapeAll(values: seq<CsvValue>): (r: seq<string>)
    ensures |r| == |values|
    ensures forall i :: 0 <= i < |values| ==> r[i] == CsvEscape(values[i])
  {
    seq(|values|, i requires 0 <= i < |values| => CsvEscape(values[i]))
  }

  function RowLine(s: Submission): string
  {
    Join(",", EscapeAll(Fields(s)))
  }

  function RowLines(rows: seq<Submission>): (r: seq<string>)
    ensures |r| == |rows|
    ensures forall i :: 0 <= i < |rows| ==> r[i] == RowLine(rows[i])
  {
    seq(|rows|, i requires 0 <= i < |rows| => RowLine(rows[i]))
  }

  /** The text `submissionsToCSV` produces: the header line, then one line per record, joined by newlines. */
  function CsvText(rows: seq<Submission>): string
  {
    Join("\n", [HeaderLine] + RowLines(rows))
  }

  /** The loop of `submissionsToCSV`: one escaped, comma-joined line per record is pushed, in order. */
  method PushRecordLines(lines0: seq<string>, rows: seq<Submission>) returns (lines: seq<string>)
    ensures lines == lines0 + RowLines(rows)
  {
    lines := lines0;
    for i := 0 to |rows|
      invariant lines == lines0 + RowLines(rows[..i])
    {
      var record := EscapeAll(Fields(rows[i]));
      lines := lines + [Join(",", record)];
      assert RowLines(rows[..i + 1]) == RowLines(rows[..i]) + [RowLine(rows[i])];
    }
    assert rows[..|rows|] == rows;
  }

  /** `submissionsToCSV`: the header line, the record lines, joined by newlines. */
  method SubmissionsToCsv(rows: seq<Submission>) returns (csv: string)
    ensures csv == CsvText(rows)
  {
    var lines := [Join(",", Headers)];
    lines := PushRecordLines(lines, rows);
    csv := Join("\n", lines);
  }

  /** No records: the header line alone. */
  lemma CsvEmpty()
    ensures CsvText([]) == HeaderLine
  {
  }

  /** The text starts with the header line, followed by a newline when there are records. */
  lemma CsvStartsWithHeader(rows: seq<Submission>)
    ensures |CsvText(rows)| >= |HeaderLine| && CsvText(rows)[..|HeaderLine|] == HeaderLine
    ensures rows != [] ==> |CsvText(rows)| > |HeaderLine| && CsvText(rows)[|HeaderLine|] == '\n'
  {
    var lines := [HeaderLine] + RowLines(rows);
    if rows != [] {
      assert lines[1..] == RowLines(rows);
      assert CsvText(rows) == HeaderLine + "\n" + Join("\n", RowLines(rows));
    }
  }

  /** `student_initiated` reads `true` exactly for anonymous records. */
  lemma StudentInitiated(s: Submission)
    ensures EscapeAll(Fields(s))[3] == (if s.mode == Anonymous then "true" else "false")
  {
  }

  /** A timestamp is never quoted: its decimal form has no quote, comma or newline. */
  lemma TimestampUnquoted(s: Submission)
    ensures EscapeAll(Fields(s))[1] == IntDecimal(s.timestamp)
  {
    var d := IntDecimal(s.timestamp);
    assert !NeedsQuotes(d);
  }

  /** Index of the first `c` in `t`. */
  function IndexOf(t: string, c: char): (k: nat)
    requires c in t
    ensures k < |t| && t[k] == c && c !in t[..k]
  {
    if t[0] == c then 0 else assert t == [t[0]] + t[1..]; 1 + IndexOf(t[1..], c)
  }

  /**
   * Reads the content of a quoted field, starting just after its opening
   * quote: `""` stands for `"`, a lone `"` closes the field. Yields the
   * content and what follows the closing quote, or None if it never closes.
   */
  function ReadQuoted(t: string): (r: Option<(string, string)>)
    ensures r.Some? ==> |r.value.1| < |t|
    decreases |t|
  {
    if t == [] then None
    else if t[0] == '"' then
      if |t| >= 2 && t[1] == '"' then
        match ReadQuoted(t[2..])
        case None => None
        case Some((f, rest)) => Some(("\"" + f, rest))
      else Some(("", t[1..]))
    else
      match ReadQuoted(t[1..])
      case None => None
      case Some((f, rest)) => Some(([t[0]] + f, rest))
  }

  /**
   * Reads one line of comma-separated fields, undoing the quoting of
   * `csvEscape`; None for a quoted field that is not closed or is followed by
   * anything but a comma.
   */
  function ParseLine(t: string): Option<seq<string>>
    decreases |t|
  {
    if t != [] && t[0] == '"' then
      match ReadQuoted(t[1..])
      case None => None
      case Some((f, rest)) =>
        if rest == [] then Some([f])
        else if rest[0] == ',' then
          match ParseLine(rest[1..])
          case None => None
          case Some(fs) => Some([f] + fs)
        else None
    else if ',' in t then
      var k := IndexOf(t, ',');
      match ParseLine(t[k + 1..])
      case None => None
      case Some(fs) => Some([t[..k]] + fs)
    else Some([t])
  }

  lemma {:induction false} ReadQuotedDoubled(s: string, rest: string)
    requires rest == [] || rest[0] != '"'
    ensures ReadQuoted(DoubleQuotes(s) + "\"" + rest) == Some((s, rest))
  {
    var t := DoubleQuotes(s) + "\"" + rest;
    if s == [] {
      assert t == "\"" + rest;
      assert t[1..] == rest;
    } else if s[0] == '"' {
      assert DoubleQuotes(s) == "\"\"" + DoubleQuotes(s[1..]);
      assert t[2..] == DoubleQuotes(s[1..]) + "\"" + rest;
      ReadQuotedDoubled(s[1..], rest);
      assert s == "\"" + s[1..];
    } else {
      assert DoubleQuotes(s) == [s[0]] + DoubleQuotes(s[1..]);
      assert t[1..] == DoubleQuotes(s[1..]) + "\"" + rest;
      ReadQuotedDoubled(s[1..], rest);
      assert s == [s[0]] + s[1..];
    }
  }

  /** A line holding one escaped field reads back as that field. */
  lemma ParseOneField(s: string)
    ensures ParseLine(Quote(s)) == Some([s])
  {
    if NeedsQuotes(s) {
      var t := Quote(s);
      assert t[1..] == DoubleQuotes(s) + "\"" + "";
      ReadQuotedDoubled(s, "");
    }
  }

  lemma PlainFieldThenRest(s: string, rest: string)
    requires !NeedsQuotes(s)
    ensures ParseLine(s + "," + rest)
      == match ParseLine(rest) case None => None case Some(fs) => Some([s] + fs)
  {
    var t := s + "," + rest;
    assert t[|s|] == ',';
    assert t[..|s|] == s;
    var k := IndexOf(t, ',');
    assert k == |s|;
    assert t[k + 1..] == rest;
    assert s != [] ==> t[0] == s[0];
  }

  lemma QuotedFieldThenRest(s: string, rest: string)
    requires NeedsQuotes(s)
    ensures ParseLine(Quote(s) + "," + rest)
      == match ParseLine(rest) case None => None case Some(fs) => Some([s] + fs)
  {
    var t := Quote(s) + "," + rest;
    assert t[1..] == DoubleQuotes(s) + "\"" + ("," + rest);
    ReadQuotedDoubled(s, "," + rest);
    assert ("," + rest)[1..] == rest;
  }

  /** An escaped field followed by a comma reads back as that field, then the rest of the line. */
  lemma ParseFieldThenRest(s: string, rest: string)
    ensures ParseLine(Quote(s) + "," + rest)
      == match ParseLine(rest) case None => None case Some(fs) => Some([s] + fs)
  {
    if NeedsQuotes(s) {
      QuotedFieldThenRest(s, rest);
    } else {
      PlainFieldThenRest(s, rest);
    }
  }

  function QuoteAll(fs: seq<string>): (r: seq<string>)
    ensures |r| == |fs|
    ensures forall i :: 0 <= i < |fs| ==> r[i] == Quote(fs[i])
  {
    seq(|fs|, i requires 0 <= i < |fs| => Quote(fs[i]))
  }

  /** Reading a line of escaped fields gives back the fields, commas and quotes included. */
  lemma {:induction false} ParseJoinQuoted(fs: seq<string>)
    requires |fs| >= 1
    ensures ParseLine(Join(",", QuoteAll(fs))) == Some(fs)
  {
    if |fs| == 1 {
      ParseOneField(fs[0]);
      assert [fs[0]] == fs;
    } else {
      assert QuoteAll(fs)[1..] == QuoteAll(fs[1..]);
      ParseJoinQuoted(fs[1..]);
      ParseFieldThenRest(fs[0], Join(",", QuoteAll(fs[1..])));
      assert [fs[0]] + fs[1..] == fs;
    }
  }

  function DisplayAll(values: seq<CsvValue>): (r: seq<string>)
    requires forall i :: 0 <= i < |values| ==> !values[i].Null?
    ensures |r| == |values|
    ensures forall i :: 0 <= i < |values| ==> r[i] == Display(values[i])
  {
    seq(|values|, i requires 0 <= i < |values| => Display(values[i]))
  }

  /** Each record line reads back as the eleven values of the record, in header order. */
  lemma RowRoundTrip(s: Submission)
    ensures ParseLine(RowLine(s)) == Some(DisplayAll(Fields(s)))
  {
    var fs := DisplayAll(Fields(s));
    assert EscapeAll(Fields(s)) == QuoteAll(fs);
    ParseJoinQuoted(fs);
  }
}
