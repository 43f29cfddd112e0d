/**
 * The data preview (src/content/data-preview-modal.js): CSV download text, the search
 * filter over the shown rows, and the splitting of link cells into one link per anchor.
 */
module DataPreview {
  import opened JsText
  import opened SeqUtil
  import opened Page
  import SidebarScrape
  import DirectScrape

  /** `text.replace(/"/g, '""')`. */
  function Escape(t: string): string
    decreases |t|
  {
    if |t| == 0 then ""
    else (if t[0] == '"' then "\"\"" else [t[0]]) + Escape(t[1..])
  }

  /** A field that holds ',', '"' or a line feed must be quoted. */
  predicate NeedsQuotes(t: string) {
    Includes(t, ",") || Includes(t, "\"") || Includes(t, "\n")
  }

  lemma NeedsQuotesIff(t: string)
    ensures NeedsQuotes(t) <==> ',' in t || '"' in t || '\n' in t
  {
    IncludesChar(t, ',');
    IncludesChar(t, '"');
    IncludesChar(t, '\n');
  }

  /** One CSV field: quoted, with inner quotes doubled, when it needs quotes; unchanged otherwise. */
  function CsvField(t: string): string {
    if NeedsQuotes(t) then "\"" + Escape(t) + "\"" else t
  }

  function CsvFields(fields: seq<string>): (r: seq<string>)
    ensures |r| == |fields|
    ensures forall i | 0 <= i < |fields| :: r[i] == CsvField(fields[i])
  {
    seq(|fields|, i requires 0 <= i < |fields| => CsvField(fields[i]))
  }

  /** One CSV line: the fields joined by ','. */
  function CsvLine(fields: seq<string>): string {
    Join(CsvFields(fields), ",")
  }

  /** `convertDataToCSV`: the header line, then one line per record, joined by line feeds. */
  function ConvertDataToCSV(data: seq<Record>): (csv: string)
    ensures data == [] ==> csv == ""
  {
    if |data| == 0 then ""
    else
      var headers := Keys(data[0]);
      var headerRow := CsvLine(headers);
      var dataRows := seq(|data|, i requires 0 <= i < |data| => CsvLine(ValuesUnder(data[i], headers)));
      Join([headerRow] + dataRows, "\n")
  }

  // A reader for the text `ConvertDataToCSV` writes: fields separated by ',', records by a
  // line feed, a field in double quotes holding any character with '"' written twice.

  /** The rest of a quoted field after its opening quote: its text, and what follows the closing quote. */
  function ReadQuoted(s: string): (r: Option<(string, string)>)
    ensures r.Some? ==> |r.value.1| < |s|
    decreases |s|
  {
    if |s| == 0 then None
    else if s[0] == '"' then
      if |s| >= 2 && s[1] == '"' then
        match ReadQuoted(s[2..])
        case None => None
        case Some((c, rest)) => Some(("\"" + c, rest))
      else Some(("", s[1..]))
    else
      match ReadQuoted(s[1..])
      case None => None
      case Some((c, rest)) => Some(([s[0]] + c, rest))
  }

  /** An unquoted field: everything up to the next ',' or line feed. */
  function ReadPlain(s: string): (r: (string, string))
    ensures |r.1| <= |s|
    decreases |s|
  {
    if |s| == 0 || s[0] == ',' || s[0] == '\n' then ("", s)
    else
      var (c, rest) := ReadPlain(s[1..]);
      ([s[0]] + c, rest)
  }

  function ReadField(s: string): (r: Option<(string, string)>)
    ensures r.Some? ==> |r.value.1| <= |s|
  {
    if |s| > 0 && s[0] == '"' then ReadQuoted(s[1..]) else Some(ReadPlain(s))
  }

  /** The fields of one record, and the text after it (empty, or starting with a line feed). */
  function ReadRecord(s: string): (r: Option<(seq<string>, string)>)
    ensures r.Some? ==> |r.value.1| <= |s|
    decreases |s|
  {
    match ReadField(s)
    case None => None
    case Some((f, rest)) =>
      if |rest| > 0 && rest[0] == ',' then
        match ReadRecord(rest[1..])
        case None => None
        case Some((fs, rest')) => Some(([f] + fs, rest'))
      else if |rest| == 0 || rest[0] == '\n' then Some(([f], rest))
      else None
  }

  /** The records of a whole text. */
  function ReadText(s: string): Option<seq<seq<string>>>
    decreases |s|
  {
    match ReadRecord(s)
    case None => None
    case Some((fs, rest)) =>
      if |rest| == 0 then Some([fs])
      else if rest[0] == '\n' then
        match ReadText(rest[1..])
        case None => None
        case Some(rows) => Some([fs] + rows)
      else None
  }

  /** A quoted field's inside reads back, up to its closing quote. */
  lemma {:induction false} QuotedRoundTrip(t: string, rest: string)
    requires |rest| == 0 || rest[0] != '"'
    ensures ReadQuoted(Escape(t) + "\"" + rest) == Some((t, rest))
    decreases |t|
  {
    if |t| == 0 {
      assert Escape(t) + "\"" + rest == ['"'] + rest;
    } else {
      QuotedRoundTrip(t[1..], rest);
      var tail := Escape(t[1..]) + "\"" + rest;
      if t[0] == '"' {
        assert Escape(t) + "\"" + rest == "\"\"" + tail;
        assert ("\"\"" + tail)[2..] == tail;
      } else {
        assert Escape(t) + "\"" + rest == [t[0]] + tail;
        assert ([t[0]] + tail)[1..] == tail;
      }
      assert [t[0]] + t[1..] == t;
    }
  }

  /** An unquoted field reads back up to the next separator. */
  lemma {:induction false} PlainRoundTrip(t: string, rest: string)
    requires ',' !in t && '\n' !in t
    requires |rest| == 0 || rest[0] == ',' || rest[0] == '\n'
    ensures ReadPlain(t + rest) == (t, rest)
    decreases |t|
  {
    if |t| == 0 {
      assert t + rest == rest;
    } else {
      PlainRoundTrip(t[1..], rest);
      assert (t + rest)[1..] == t[1..] + rest;
      assert [t[0]] + t[1..] == t;
    }
  }

  /** Every field reads back as itself, whether it was quoted or not. */
  lemma FieldRoundTrip(t: string, rest: string)
    requires |rest| == 0 || rest[0] == ',' || rest[0] == '\n'
    ensures ReadField(CsvField(t) + rest) == Some((t, rest))
  {
    if NeedsQuotes(t) {
      QuotedFieldRoundTrip(t, rest);
    } else {
      NeedsQuotesIff(t);
      PlainFieldRoundTrip(t, rest);
    }
  }

  lemma QuotedFieldRoundTrip(t: string, rest: string)
    requires |rest| == 0 || rest[0] == ',' || rest[0] == '\n'
    ensures ReadField("\"" + Escape(t) + "\"" + rest) == Some((t, rest))
  {
    var s := "\"" + Escape(t) + "\"" + rest;
    assert s[1..] == Escape(t) + "\"" + rest;
    QuotedRoundTrip(t, rest);
  }

  lemma PlainFieldRoundTrip(t: string, rest: string)
    requires |rest| == 0 || rest[0] == ',' || rest[0] == '\n'
    requires ',' !in t && '"' !in t && '\n' !in t
    ensures ReadField(t + rest) == Some((t, rest))
  {
    PlainRoundTrip(t, rest);
    if |t| == 0 {
      assert t + rest == rest;
    } else {
      assert (t + rest)[0] == t[0];
    }
  }

  /** A line of fields reads back as those fields. */
  lemma {:induction false} RecordRoundTrip(fields: seq<string>, rest: string)
    requires |fields| >= 1
    requires |rest| == 0 || rest[0] == '\n'
    ensures ReadRecord(CsvLine(fields) + rest) == Some((fields, rest))
    decreases |fields|
  {
    if |fields| == 1 {
      assert CsvLine(fields) == CsvField(fields[0]);
      FieldRoundTrip(fields[0], rest);
      assert fields == [fields[0]];
    } else {
      var tail := CsvLine(fields[1..]) + rest;
      assert CsvFields(fields)[1..] == CsvFields(fields[1..]);
      assert CsvLine(fields) + rest == CsvField(fields[0]) + ("," + tail);
      FieldRoundTrip(fields[0], "," + tail);
      assert ("," + tail)[1..] == tail;
      RecordRoundTrip(fields[1..], rest);
      assert [fields[0]] + fields[1..] == fields;
    }
  }

  function CsvLines(rows: seq<seq<string>>): (r: seq<string>)
    ensures |r| == |rows|
    ensures forall i | 0 <= i < |rows| :: r[i] == CsvLine(rows[i])
  {
    seq(|rows|, i requires 0 <= i < |rows| => CsvLine(rows[i]))
  }

  /** Lines of at least one field each, joined by line feeds, read back as the rows. */
  lemma {:induction false} TextRoundTrip(rows: seq<seq<string>>)
    requires |rows| >= 1
    requires forall i | 0 <= i < |rows| :: |rows[i]| >= 1
    ensures ReadText(Join(CsvLines(rows), "\n")) == Some(rows)
    decreases |rows|
  {
    if |rows| == 1 {
      RecordRoundTrip(rows[0], "");
      assert CsvLine(rows[0]) + "" == CsvLine(rows[0]);
      assert Join(CsvLines(rows), "\n") == CsvLine(rows[0]);
      assert rows == [rows[0]];
    } else {
      var tail := Join(CsvLines(rows[1..]), "\n");
      assert CsvLines(rows)[1..] == CsvLines(rows[1..]);
      assert Join(CsvLines(rows), "\n") == CsvLine(rows[0]) + ("\n" + tail);
      RecordRoundTrip(rows[0], "\n" + tail);
      assert ("\n" + tail)[1..] == tail;
      TextRoundTrip(rows[1..]);
      assert [rows[0]] + rows[1..] == rows;
    }
  }

  /**
   * The CSV text of at least one record whose first record has a key reads back, record by
   * record and field by field, as the grid `flattenToValues` builds from the same records:
   * the first record's keys, then each record's value under each key, '' when missing.
   */
  lemma CsvRoundTrip(data: seq<Record>)
    requires |data| > 0 && |data[0]| > 0
    ensures ReadText(ConvertDataToCSV(data)) == Some(SidebarScrape.Flatten(data))
  {
    var g := SidebarScrape.Flatten(data);
    CsvOfFlatten(data);
    SidebarScrape.FlattenSpec(data);
    assert forall i | 0 <= i < |g| :: |g[i]| == |data[0]|;
    TextRoundTrip(g);
  }

  /** The CSV text is the lines of the flattened grid joined by line feeds. */
  lemma CsvOfFlatten(data: seq<Record>)
    requires |data| > 0
    ensures ConvertDataToCSV(data) == Join(CsvLines(SidebarScrape.Flatten(data)), "\n")
  {
    var g := SidebarScrape.Flatten(data);
    var headers := Keys(data[0]);
    var lines := [CsvLine(headers)] + seq(|data|, i requires 0 <= i < |data| => CsvLine(ValuesUnder(data[i], headers)));
    assert ConvertDataToCSV(data) == Join(lines, "\n");
    forall i | 0 <= i < |g| ensures CsvLines(g)[i] == lines[i] {
      if i > 0 {
        assert g[i] == ValuesUnder(data[i - 1], headers);
      }
    }
    assert CsvLines(g) == lines;
  }

  /** The `filterTable` test: some column's value, lower-cased, contains the lower-cased term. */
  predicate RowMatches(headers: seq<string>, row: Record, term: string) {
    exists j | 0 <= j < |headers| :: Includes(Lower(ValueOr(row, headers[j])), Lower(term))
  }

  /** `dataRows.filter(...)` with that test. */
  function MatchingRows(headers: seq<string>, rows: seq<Record>, term: string): seq<Record> {
    Filter(rows, row => RowMatches(headers, row, term))
  }

  /** The rows `filterTable` shows: all of them for a blank term, else the matching ones. */
  function FilterTable(headers: seq<string>, rows: seq<Record>, term: string): seq<Record> {
    if Trim(term) == "" then rows else MatchingRows(headers, rows, term)
  }

  /** A term that is blank once trimmed shows every row unchanged; any other term filters. */
  lemma FilterTableSpec(headers: seq<string>, rows: seq<Record>, term: string) returns (idx: seq<nat>)
    ensures IsBlank(term) ==> FilterTable(headers, rows, term) == rows
    ensures !IsBlank(term) ==>
              && PicksInOrder(idx, FilterTable(headers, rows, term), rows)
              && forall i | 0 <= i < |rows| :: i in idx <==> RowMatches(headers, rows[i], term)
  {
    TrimSpec(term);
    idx := FilterSpec(rows, row => RowMatches(headers, row, term));
  }

  /** `value.split(',').filter(link => link.trim()).map(link => link.trim())`. */
  function LinksOfPieces(pieces: seq<string>): seq<string>
    decreases |pieces|
  {
    if |pieces| == 0 then []
    else if Trim(pieces[0]) != "" then [Trim(pieces[0])] + LinksOfPieces(pieces[1..])
    else LinksOfPieces(pieces[1..])
  }

  function SplitLinks(value: string): seq<string> {
    LinksOfPieces(Split(value, ','))
  }

  /** A link is non-empty, has no white space at either end, and has no ','. */
  predicate CleanLink(l: string) {
    l != "" && Trim(l) == l && ',' !in l
  }

  lemma {:induction false} LinksOfPiecesClean(pieces: seq<string>)
    requires forall i | 0 <= i < |pieces| :: ',' !in pieces[i]
    ensures forall i | 0 <= i < |LinksOfPieces(pieces)| :: CleanLink(LinksOfPieces(pieces)[i])
    decreases |pieces|
  {
    if |pieces| > 0 {
      LinksOfPiecesClean(pieces[1..]);
      TrimIdempotent(pieces[0]);
      var t := Trim(pieces[0]);
      TrimEndSpec(TrimStart(pieces[0]));
      TrimStartSpec(pieces[0]);
    }
  }

  lemma {:induction false} LinksOfCleanPieces(links: seq<string>)
    requires forall i | 0 <= i < |links| :: CleanLink(links[i])
    ensures LinksOfPieces(links) == links
    decreases |links|
  {
    if |links| > 0 {
      LinksOfCleanPieces(links[1..]);
    }
  }

  /**
   * The links a link cell shows: each non-empty, trimmed and free of ','. Links with those
   * three properties, joined by ',', split back into the same links in the same order.
   */
  lemma SplitLinksSpec(value: string, links: seq<string>)
    ensures forall i | 0 <= i < |SplitLinks(value)| :: CleanLink(SplitLinks(value)[i])
    ensures |links| > 0 && (forall i | 0 <= i < |links| :: CleanLink(links[i])) ==>
              SplitLinks(Join(links, ",")) == links
  {
    LinksOfPiecesClean(Split(value, ','));
    if |links| > 0 && (forall i | 0 <= i < |links| :: CleanLink(links[i])) {
      SplitJoin(links, ',');
      LinksOfCleanPieces(links);
    }
  }

  /** How the preview shows one value: link columns as one anchor per link, others as text. */
  datatype Shown = LinkCell(links: seq<string>) | TextCell(text: string)

  function ShowCell(header: string, row: Record): Shown {
    var v := ValueOr(row, header);
    if (header == "Website" || header == "LinkedIn" || header == "Founder LinkedIn") && v != "" then
      LinkCell(SplitLinks(v))
    else TextCell(v)
  }

  /**
   * The founders' LinkedIn links that the background tab scrapes come back one per anchor
   * in the preview, when each is trimmed, non-empty and free of ','.
   */
  lemma FounderLinksShown(row: Record, cell: Cell)
    requires ValueOr(row, "Founder LinkedIn") == Join(DirectScrape.FounderLinks(cell), ",")
    requires DirectScrape.FounderLinks(cell) != []
    requires forall x | x in DirectScrape.FounderCandidates(cell) :: CleanLink(x)
    ensures ShowCell("Founder LinkedIn", row) == LinkCell(DirectScrape.FounderLinks(cell))
  {
    var l := DirectScrape.FounderLinks(cell);
    DedupFirstSpec(DirectScrape.FounderCandidates(cell));
    assert forall i | 0 <= i < |l| :: l[i] in l;
    SplitLinksSpec(Join(l, ","), l);
  }
}
