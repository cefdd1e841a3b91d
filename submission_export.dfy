/**
 * internal/services/submission_export_service.go: CSV export of a popup's
 * submissions. Fields that may hold commas, quotes or line breaks are quoted
 * and their quotes doubled, as section 2, item 7 of RFC 4180 prescribes.
 */
module SubmissionExport {
  import opened Common
  import opened Models

  /** One character of a field as escapeCSVField emits it. */
  function EscapeChar(c: char): string {
    if c == '"' then "\"\"" else [c]
  }

  /** The escaped field: every '"' doubled, every other character kept, in order. */
  function Escaped(field: string): string
    decreases |field|
  {
    if |field| == 0 then "" else EscapeChar(field[0]) + Escaped(field[1..])
  }

  /** The number of '"' characters in s. */
  function QuoteCount(s: string): nat {
    multiset(s)['"']
  }

  /** Collapse each "" back into a single '"': the reading a CSV consumer applies. */
  function Unescape(t: string): string
    decreases |t|
  {
    if |t| >= 2 && t[0] == '"' && t[1] == '"' then "\"" + Unescape(t[2..])
    else if |t| == 0 then ""
    else [t[0]] + Unescape(t[1..])
  }

  lemma {:induction false} EscapedSnoc(s: string, c: char)
    ensures Escaped(s + [c]) == Escaped(s) + EscapeChar(c)
    decreases |s|
  {
    if |s| == 0 {
      assert s + [c] == [c];
    } else {
      assert (s + [c])[1..] == s[1..] + [c];
      EscapedSnoc(s[1..], c);
    }
  }

  /** escapeCSVField: the loop that builds `escaped` character by character. */
  method EscapeCSVField(field: string) returns (escaped: string)
    ensures escaped == Escaped(field)
  {
    escaped := "";
    var i := 0;
    while i < |field|
      invariant 0 <= i <= |field|
      invariant escaped == Escaped(field[..i])
    {
      if field[i] == '"' {
        escaped := escaped + "\"\"";
      } else {
        escaped := escaped + [field[i]];
      }
      EscapedSnoc(field[..i], field[i]);
      assert field[..i + 1] == field[..i] + [field[i]];
      i := i + 1;
    }
    assert field[..i] == field;
  }

  /** The escaped field is one character longer for every quote. */
  lemma {:induction false} EscapedLength(field: string)
    ensures |Escaped(field)| == |field| + QuoteCount(field)
    decreases |field|
  {
    if |field| > 0 {
      EscapedLength(field[1..]);
      assert field == [field[0]] + field[1..];
      assert multiset(field) == multiset([field[0]]) + multiset(field[1..]);
    }
  }

  /** Collapsing doubled quotes undoes the escaping. */
  lemma {:induction false} UnescapeEscaped(field: string)
    ensures Unescape(Escaped(field)) == field
    decreases |field|
  {
    if |field| > 0 {
      UnescapeEscaped(field[1..]);
      var t := Escaped(field);
      if field[0] == '"' {
        assert t[2..] == Escaped(field[1..]);
      } else {
        assert t[1..] == Escaped(field[1..]);
      }
      assert field == [field[0]] + field[1..];
    }
  }

  /** A field without quotes is emitted as it is. */
  lemma {:induction false} EscapedQuoteFree(field: string)
    requires Free(field, '"')
    ensures Escaped(field) == field
    decreases |field|
  {
    if |field| > 0 {
      EscapedQuoteFree(field[1..]);
      assert field == [field[0]] + field[1..];
    }
  }

  /**
   * A reader for the inside of a quoted RFC 4180 field: it stops at the first
   * quote not followed by another and returns the field and what follows the
   * closing quote, or None when the field is never closed.
   */
  function ReadQuoted(t: string): (r: Option<(string, string)>)
    decreases |t|
  {
    if |t| == 0 then None
    else if t[0] == '"' then
      if |t| >= 2 && t[1] == '"' then
        match ReadQuoted(t[2..])
        case None => None
        case Some(p) => Some(("\"" + p.0, p.1))
      else Some(("", t[1..]))
    else
      match ReadQuoted(t[1..])
      case None => None
      case Some(p) => Some(([t[0]] + p.0, p.1))
  }

  /**
   * An escaped field followed by its closing quote and a comma reads back as
   * the field itself, with the reader positioned at the comma: the quoting
   * cannot end a field early.
   */
  lemma {:induction false} ReadQuotedEscaped(field: string, rest: string)
    ensures ReadQuoted(Escaped(field) + "\"," + rest) == Some((field, "," + rest))
    decreases |field|
  {
    var t := Escaped(field) + "\"," + rest;
    if |field| == 0 {
      assert t == "\"," + rest;
      assert t[1..] == "," + rest;
    } else {
      ReadQuotedEscaped(field[1..], rest);
      var tail := Escaped(field[1..]) + "\"," + rest;
      if field[0] == '"' {
        assert t == "\"\"" + tail;
        assert t[2..] == tail;
      } else {
        assert t == [field[0]] + tail;
        assert t[1..] == tail;
      }
      assert field == [field[0]] + field[1..];
    }
  }

  /** The first line of every export. */
  const CsvHeader: string := "id,popup_id,form_data,user_agent,user_ip,referrer_url,created_at\n"

  /**
   * Already escaped fields, each closed by a quote and a comma and each but
   * the first opened by a quote, followed by `last`: the `"%s","%s",...,`
   * part of a row.
   */
  function QuotedJoin(escaped: seq<string>, last: string): string
    decreases |escaped|
  {
    if |escaped| == 0 then last
    else if |escaped| == 1 then escaped[0] + "\"," + last
    else escaped[0] + "\"," + "\"" + QuotedJoin(escaped[1..], last)
  }

  function EscapedAll(fields: seq<string>): (r: seq<string>)
    ensures |r| == |fields| && forall i :: 0 <= i < |fields| ==> r[i] == Escaped(fields[i])
  {
    seq(|fields|, i requires 0 <= i < |fields| => Escaped(fields[i]))
  }

  /**
   * A reader for `count` quoted fields laid out as QuotedJoin lays them out:
   * each field, the comma after it, and the quote that opens the next.
   */
  function ReadFields(t: string, count: nat): Option<(seq<string>, string)>
    decreases count
  {
    if count == 0 then Some(([], t))
    else match ReadQuoted(t)
      case None => None
      case Some(p) =>
        if |p.1| == 0 || p.1[0] != ',' then None
        else if count == 1 then Some(([p.0], p.1[1..]))
        else if |p.1| < 2 || p.1[1] != '"' then None
        else match ReadFields(p.1[2..], count - 1)
          case None => None
          case Some(q) => Some(([p.0] + q.0, q.1))
  }

  /** The quoted fields of a row read back as the submission's own fields, in order, whatever they hold. */
  lemma {:induction false} ReadFieldsQuotedJoin(fields: seq<string>, last: string)
    requires |fields| >= 1
    ensures ReadFields(QuotedJoin(EscapedAll(fields), last), |fields|) == Some((fields, last))
    decreases |fields|
  {
    var e := EscapedAll(fields);
    if |fields| == 1 {
      ReadQuotedEscaped(fields[0], last);
      assert fields == [fields[0]];
    } else {
      var rest := "\"" + QuotedJoin(e[1..], last);
      assert QuotedJoin(e, last) == Escaped(fields[0]) + "\"," + rest;
      ReadQuotedEscaped(fields[0], rest);
      assert e[1..] == EscapedAll(fields[1..]);
      ReadFieldsQuotedJoin(fields[1..], last);
      assert ("," + rest)[2..] == QuotedJoin(e[1..], last);
      assert fields == [fields[0]] + fields[1..];
    }
  }

  /** The four free-text columns, in header order. */
  function TextColumns(s: Submission): seq<string> {
    [s.formData, s.userAgent, s.userIp, s.referrerUrl]
  }

  /** The row format: id and popup_id bare, the escaped text columns quoted, created_at bare. */
  function FormatRow(idText: string, popupIdText: string, escaped: seq<string>, createdAt: string): string {
    idText + "," + popupIdText + ",\"" + QuotedJoin(escaped, createdAt + "\n")
  }

  /** One exported row with the given text in the id column. */
  function RowWithId(idText: string, s: Submission): string {
    FormatRow(idText, UuidString(s.popupId), EscapedAll(TextColumns(s)), s.createdAt)
  }

  /** The row as the format string writes it: %d prints the id's 16 bytes as a decimal list. */
  function CsvRowAsWritten(s: Submission): string {
    RowWithId(DecimalByteList(s.id), s)
  }

  /** The row with the evidently intended id column: the UUID's text, as the popup_id column already has. */
  function CsvRow(s: Submission): string {
    RowWithId(UuidString(s.id), s)
  }

  /**
   * A row is the two UUID columns, then the four free-text columns quoted
   * and escaped, which read back exactly as form_data, user_agent, user_ip
   * and referrer_url, then created_at and the line break.
   */
  lemma RowFieldsReadBack(s: Submission)
    ensures var r := CsvRow(s);
      |r| > 76 && r[..36] == UuidString(s.id) && r[37..73] == UuidString(s.popupId)
      && r[36] == ',' && r[73..75] == ",\""
      && ReadFields(r[75..], 4) == Some((TextColumns(s), s.createdAt + "\n"))
  {
    var tail := QuotedJoin(EscapedAll(TextColumns(s)), s.createdAt + "\n");
    ReadFieldsQuotedJoin(TextColumns(s), s.createdAt + "\n");
    var r := CsvRow(s);
    var prefix := UuidString(s.id) + "," + UuidString(s.popupId) + ",\"";
    assert r == prefix + tail;
    assert |tail| >= 2 by {
      assert tail == Escaped(s.formData) + "\"," + "\"" + QuotedJoin(EscapedAll(TextColumns(s))[1..], s.createdAt + "\n");
    }
    assert r[75..] == tail;
  }

  /** The as-written id column cannot be the UUID's text: it opens with '['. */
  lemma CsvIdAsWrittenIsNotUuid(s: Submission)
    ensures CsvRowAsWritten(s)[0] == '['
    ensures CsvRow(s)[0] != '['
  {
    assert CsvRow(s)[0] == UuidString(s.id)[0] == HexBytes(s.id[..4])[0] == HexDigit(s.id[0] / 16);
  }

  /** Lines written one after another. */
  function Concat(lines: seq<string>): string
    decreases |lines|
  {
    if |lines| == 0 then "" else Concat(lines[..|lines| - 1]) + lines[|lines| - 1]
  }

  lemma {:induction false} ConcatAppend(a: seq<string>, b: seq<string>)
    ensures Concat(a + b) == Concat(a) + Concat(b)
    decreases |b|
  {
    if |b| == 0 {
      assert a + b == a;
    } else {
      var b' := b[..|b| - 1];
      ConcatAppend(a, b');
      assert (a + b)[..|a + b| - 1] == a + b';
      assert (a + b)[|a + b| - 1] == b[|b| - 1];
    }
  }

  /** The row of each submission, in input order. */
  function RowsOf(subs: seq<Submission>): (r: seq<string>)
    ensures |r| == |subs| && forall i :: 0 <= i < |subs| ==> r[i] == CsvRow(subs[i])
  {
    seq(|subs|, i requires 0 <= i < |subs| => CsvRow(subs[i]))
  }

  /** The data part of an export: the rows of the submissions, one after another. */
  function Rows(subs: seq<Submission>): string {
    Concat(RowsOf(subs))
  }

  /** Exporting two lists one after the other gives the rows of both, in order. */
  lemma RowsAppend(a: seq<Submission>, b: seq<Submission>)
    ensures Rows(a + b) == Rows(a) + Rows(b)
  {
    assert RowsOf(a + b) == RowsOf(a) + RowsOf(b);
    ConcatAppend(RowsOf(a), RowsOf(b));
  }

  lemma RowsSnoc(subs: seq<Submission>, i: nat)
    requires i < |subs|
    ensures Rows(subs[..i + 1]) == Rows(subs[..i]) + CsvRow(subs[i])
  {
    var before := RowsOf(subs[..i]);
    var line := CsvRow(subs[i]);
    assert RowsOf(subs[..i + 1]) == before + [line];
    ConcatSnoc(before, line);
  }

  lemma ConcatSnoc(lines: seq<string>, line: string)
    ensures Concat(lines + [line]) == Concat(lines) + line
  {
    assert (lines + [line])[..|lines|] == lines;
  }

  /**
   * Helper of ExportToCSV, kept apart so that the loop's associativity step
   * is solved without the loop's sequence facts around it.
   */
  lemma AppendAssoc(a: string, b: string, c: string)
    ensures (a + b) + c == a + (b + c)
  {
  }

  /** The Sprintf of one loop iteration, with each text column passed through escapeCSVField. */
  method FormatLine(s: Submission) returns (line: string)
    ensures line == CsvRow(s)
  {
    var formData := EscapeCSVField(s.formData);
    var userAgent := EscapeCSVField(s.userAgent);
    var userIp := EscapeCSVField(s.userIp);
    var referrer := EscapeCSVField(s.referrerUrl);
    assert [formData, userAgent, userIp, referrer] == EscapedAll(TextColumns(s));
    line := FormatRow(UuidString(s.id), UuidString(s.popupId), [formData, userAgent, userIp, referrer], s.createdAt);
  }

  /** exportToCSV: the header, then one line per submission appended in a loop. */
  method ExportToCSV(subs: seq<Submission>) returns (csv: string)
    ensures csv == CsvHeader + Rows(subs)
    ensures |subs| == 0 ==> csv == CsvHeader
  {
    if |subs| == 0 {
      return CsvHeader;
    }
    csv := CsvHeader;
    var i := 0;
    while i < |subs|
      invariant 0 <= i <= |subs|
      invariant csv == CsvHeader + Rows(subs[..i])
    {
      var line := FormatLine(subs[i]);
      RowsSnoc(subs, i);
      AppendAssoc(CsvHeader, Rows(subs[..i]), line);
      csv := csv + line;
      i := i + 1;
    }
    assert subs[..i] == subs;
  }

  /** JSON marshalling is encoding/json's job; the model takes it as given. */
  type JsonMarshal = seq<Submission> -> string

  /** The submissions of one popup, in the order the query returns them (created_at descending). */
  function OfPopup(rows: seq<Submission>, popupId: Uuid): (r: seq<Submission>)
    ensures forall s :: s in r <==> s in rows && s.popupId == popupId
    decreases |rows|
  {
    if |rows| == 0 then []
    else (if rows[0].popupId == popupId then [rows[0]] else []) + OfPopup(rows[1..], popupId)
  }

  /**
   * ExportSubmissions: a missing popup is reported before the format is
   * looked at; "json" and "csv" are the only formats.
   */
  method ExportSubmissions(popupIds: set<Uuid>, rows: seq<Submission>, popupId: Uuid, format: string, marshal: JsonMarshal)
    returns (r: Result<string>)
    ensures popupId !in popupIds ==> r == Err("popup not found")
    ensures popupId in popupIds && format == "json" ==> r == Ok(marshal(OfPopup(rows, popupId)))
    ensures popupId in popupIds && format == "csv" ==> r == Ok(CsvHeader + Rows(OfPopup(rows, popupId)))
    ensures popupId in popupIds && format != "json" && format != "csv" ==> r == Err("unsupported export format")
  {
    if popupId !in popupIds {
      return Err("popup not found");
    }
    var subs := OfPopup(rows, popupId);
    if format == "json" {
      r := Ok(marshal(subs));
    } else if format == "csv" {
      var csv := ExportToCSV(subs);
      r := Ok(csv);
    } else {
      r := Err("unsupported export format");
    }
  }
}
