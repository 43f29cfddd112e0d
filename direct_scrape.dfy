/**
 * The background tab's scraper (`scrapeLatkaTableDirect` in src/content/content.js): the
 * same walk over the first table as the sidebar's, with twelve requested columns. The
 * company's website and LinkedIn page come from labelled anchors of the Name cell, and the
 * founders' LinkedIn profiles are gathered from the Founder cell's anchors and buttons.
 */
module DirectScrape {
  import opened JsText
  import opened SeqUtil
  import opened Page

  /** `requestedColumns`, in order. */
  const DirectColumns: seq<string> :=
    ["Name", "Website", "LinkedIn", "Funding", "Valuation", "Growth", "Founder",
     "Founder LinkedIn", "Team Size", "Founded", "Location", "Industry"]

  /** The header whose cell a requested column reads. */
  function BaseHeader(col: string): string {
    if col == "Name" || col == "Website" || col == "LinkedIn" then "Name"
    else if col == "Founder" || col == "Founder LinkedIn" then "Founder"
    else col
  }

  /** `cell.querySelector('a[aria-label="<aria>"]')`: the first anchor with that label. */
  function FirstLabelled(anchors: seq<Anchor>, aria: string): (a: Option<Anchor>)
    ensures a.Some? <==> exists i | 0 <= i < |anchors| :: anchors[i].ariaLabel == Some(aria)
    ensures a.Some? ==> exists i | 0 <= i < |anchors| ::
              && anchors[i] == a.value && anchors[i].ariaLabel == Some(aria)
              && forall j | 0 <= j < i :: anchors[j].ariaLabel != Some(aria)
    decreases |anchors|
  {
    if |anchors| == 0 then None
    else if anchors[0].ariaLabel == Some(aria) then Some(anchors[0])
    else
      var a := FirstLabelled(anchors[1..], aria);
      assert forall i | 0 <= i < |anchors| - 1 :: anchors[1..][i] == anchors[i + 1];
      a
  }

  /** The `href` of the first anchor with that label, when it has one, joined as a list of one. */
  function LabelledLink(cell: Cell, aria: string): string {
    var a := FirstLabelled(cell.anchors, aria);
    var links := if a.Some? && a.value.href != "" then [a.value.href] else [];
    Join(links, ",")
  }

  /** The anchor `href`s that mention linkedin.com, in order. */
  function AnchorLinkedIn(hrefs: seq<string>): (r: seq<string>)
    ensures forall x :: x in r <==> x in hrefs && x != "" && Includes(x, "linkedin.com")
    decreases |hrefs|
  {
    if |hrefs| == 0 then []
    else
      var init := AnchorLinkedIn(hrefs[..|hrefs| - 1]);
      var h := hrefs[|hrefs| - 1];
      assert hrefs == hrefs[..|hrefs| - 1] + [h];
      if h != "" && Includes(h, "linkedin.com") then init + [h] else init
  }

  /** An `onclick` match as a full URL: `https://www.` is put in front unless it starts with http. */
  function FullUrl(m: string): string {
    if StartsWith(m, "http") then m else "https://www." + m
  }

  /** The buttons' matches as full URLs, in order. */
  function OnclickLinkedIn(matches: seq<string>): (r: seq<string>)
    ensures |r| == |matches|
    ensures forall i | 0 <= i < |r| :: r[i] == FullUrl(matches[i])
  {
    seq(|matches|, i requires 0 <= i < |matches| => FullUrl(matches[i]))
  }

  /** `linkedinLinks` before de-duplication: anchors first, then buttons. */
  function FounderCandidates(cell: Cell): seq<string> {
    AnchorLinkedIn(Hrefs(cell)) + OnclickLinkedIn(cell.onclickMatches)
  }

  /** `[...new Set(linkedinLinks)]`. */
  function FounderLinks(cell: Cell): seq<string> {
    DedupFirst(FounderCandidates(cell))
  }

  /** The value of one requested column in one row. */
  function ColumnValue(headers: seq<string>, cells: seq<Cell>, col: string): string {
    var idx := IndexOf(headers, BaseHeader(col));
    if idx > -1 && idx < |cells| then
      if col == "Website" then LabelledLink(cells[idx], "website url")
      else if col == "LinkedIn" then LabelledLink(cells[idx], "Company linkedIn")
      else if col == "Founder LinkedIn" then Join(FounderLinks(cells[idx]), ",")
      else Trim(cells[idx].text)
    else ""
  }

  /** The fields of the given requested columns, in order. */
  function ColumnFields(headers: seq<string>, cells: seq<Cell>, cols: seq<string>): (r: Record)
    ensures Keys(r) == cols
  {
    seq(|cols|, i requires 0 <= i < |cols| => Field(cols[i], ColumnValue(headers, cells, cols[i])))
  }

  function RowRecord(headers: seq<string>, cells: seq<Cell>): Record {
    ColumnFields(headers, cells, DirectColumns)
  }

  function RowRecords(headers: seq<string>, rows: TableRows): (rs: seq<Record>)
    ensures |rs| == |rows|
    ensures forall i | 0 <= i < |rows| :: rs[i] == RowRecord(headers, rows[i])
    decreases |rows|
  {
    if |rows| == 0 then []
    else RowRecords(headers, rows[..|rows| - 1]) + [RowRecord(headers, rows[|rows| - 1])]
  }

  /** What `scrapeLatkaTableDirect` returns for the page's first table, or for a page without one. */
  function Scraped(table: Option<TableRows>): seq<Record> {
    match table
    case None => []
    case Some(rows) => if |rows| == 0 then [] else RowRecords(HeaderTexts(rows[0]), rows[1..])
  }

  lemma DirectColumnsDistinct()
    ensures Distinct(DirectColumns)
  {
  }

  /** `scrapeLatkaTableDirect`, with its loop over the data rows. */
  method ScrapeLatkaTableDirect(table: Option<TableRows>) returns (records: seq<Record>)
    ensures records == Scraped(table)
  {
    if table.None? {
      return [];
    }
    var rows := table.value;
    records := [];
    if |rows| > 0 {
      var headers := HeaderTexts(rows[0]);
      var r := 1;
      while r < |rows|
        invariant 1 <= r <= |rows|
        invariant records == RowRecords(headers, rows[1..r])
      {
        var rowData := ScrapeRow(headers, rows[r]);
        assert rows[1..r + 1] == rows[1..r] + [rows[r]];
        records := records + [rowData];
        r := r + 1;
      }
    }
  }

  /** The body of the loop over data rows: both passes over the requested columns. */
  method ScrapeRow(headers: seq<string>, cells: seq<Cell>) returns (rowData: Record)
    ensures rowData == RowRecord(headers, cells)
  {
    DirectColumnsDistinct();
    rowData := SetColumns(headers, cells, DirectColumns);
    // The second pass finds nothing missing: the first set every requested column.
    rowData := AddMissing(rowData, DirectColumns);
  }

  /** The first pass: `rowData[reqCol] = value` for each requested column in turn. */
  method SetColumns(headers: seq<string>, cells: seq<Cell>, cols: seq<string>) returns (rowData: Record)
    requires Distinct(cols)
    ensures rowData == ColumnFields(headers, cells, cols)
  {
    rowData := [];
    var c := 0;
    while c < |cols|
      invariant 0 <= c <= |cols|
      invariant rowData == ColumnFields(headers, cells, cols[..c])
    {
      var col := cols[c];
      var cellIndex := IndexOf(headers, BaseHeader(col));
      var value := "";
      if cellIndex > -1 && cellIndex < |cells| {
        var cell := cells[cellIndex];
        if col == "Website" {
          value := LabelledLink(cell, "website url");
        } else if col == "LinkedIn" {
          value := LabelledLink(cell, "Company linkedIn");
        } else if col == "Founder LinkedIn" {
          var links := CollectFounderLinks(cell);
          value := Join(DedupFirst(links), ",");
        } else {
          value := Trim(cell.text);
        }
      }
      assert value == ColumnValue(headers, cells, col);
      SetColumnStep(headers, cells, cols, c);
      rowData := Put(rowData, col, value);
      c := c + 1;
    }
    assert cols[..|cols|] == cols;
  }

  /** Setting the next requested column appends its field after the ones already set. */
  lemma SetColumnStep(headers: seq<string>, cells: seq<Cell>, cols: seq<string>, c: nat)
    requires Distinct(cols) && c < |cols|
    ensures Put(ColumnFields(headers, cells, cols[..c]), cols[c], ColumnValue(headers, cells, cols[c]))
            == ColumnFields(headers, cells, cols[..c + 1])
  {
    var r := ColumnFields(headers, cells, cols[..c]);
    var f := Field(cols[c], ColumnValue(headers, cells, cols[c]));
    assert cols[c] !in Keys(r) by {
      assert Keys(r) == cols[..c];
    }
    PutNew(r, cols[c], f.value);
    var next := ColumnFields(headers, cells, cols[..c + 1]);
    assert |next| == c + 1;
    forall i | 0 <= i < c ensures next[i] == r[i] {
      assert cols[..c + 1][i] == cols[..c][i];
    }
    assert next[c] == f;
    assert next == r + [f];
  }

  /** The two `forEach` loops that push into `linkedinLinks`. */
  method CollectFounderLinks(cell: Cell) returns (links: seq<string>)
    ensures links == FounderCandidates(cell)
  {
    links := [];
    var hrefs := Hrefs(cell);
    var i := 0;
    while i < |hrefs|
      invariant 0 <= i <= |hrefs|
      invariant links == AnchorLinkedIn(hrefs[..i])
    {
      AnchorLinkedInStep(hrefs, i);
      if hrefs[i] != "" && Includes(hrefs[i], "linkedin.com") {
        links := links + [hrefs[i]];
      }
      i := i + 1;
    }
    assert hrefs[..i] == hrefs;
    ghost var all := FounderCandidates(cell);
    ghost var n := |links|;
    assert all[..n] == links;
    var k := 0;
    while k < |cell.onclickMatches|
      invariant 0 <= k <= |cell.onclickMatches|
      invariant n == |AnchorLinkedIn(hrefs)| && n + |cell.onclickMatches| == |all|
      invariant links == all[..n + k]
    {
      var m := cell.onclickMatches[k];
      var fullUrl := if StartsWith(m, "http") then m else "https://www." + m;
      CandidatesStep(cell, k);
      links := links + [fullUrl];
      k := k + 1;
    }
    assert all[..n + k] == all;
  }

  /** The anchor pass over one more `href`. */
  lemma AnchorLinkedInStep(hrefs: seq<string>, i: nat)
    requires i < |hrefs|
    ensures AnchorLinkedIn(hrefs[..i + 1]) ==
              if hrefs[i] != "" && Includes(hrefs[i], "linkedin.com") then AnchorLinkedIn(hrefs[..i]) + [hrefs[i]]
              else AnchorLinkedIn(hrefs[..i])
  {
    assert hrefs[..i + 1][..i] == hrefs[..i];
  }

  /** The button pass over one more match. */
  lemma CandidatesStep(cell: Cell, k: nat)
    requires k < |cell.onclickMatches|
    ensures var all := FounderCandidates(cell);
      var n := |AnchorLinkedIn(Hrefs(cell))| + k;
      n < |all| && all[..n + 1] == all[..n] + [FullUrl(cell.onclickMatches[k])]
  {
    ConcatPrefixStep(AnchorLinkedIn(Hrefs(cell)), OnclickLinkedIn(cell.onclickMatches), k);
  }

  /**
   * No table gives no records; otherwise there is one record per row below the header,
   * each with exactly the twelve requested columns, in order.
   */
  lemma ScrapedShape(table: Option<TableRows>)
    ensures table.None? ==> Scraped(table) == []
    ensures table.Some? ==> |Scraped(table)| == if |table.value| == 0 then 0 else |table.value| - 1
    ensures forall i | 0 <= i < |Scraped(table)| :: Keys(Scraped(table)[i]) == DirectColumns
  {
  }

  /**
   * Where a column's value comes from: `Name`, `Website` and `LinkedIn` read the first cell
   * under the header "Name", `Founder` and `Founder LinkedIn` the first under "Founder", any
   * other column the first under its own name; without that header, or past the row's last
   * cell, the value is ''.
   */
  lemma RowRecordSource(headers: seq<string>, cells: seq<Cell>, k: nat)
    requires k < |DirectColumns|
    ensures var col := DirectColumns[k];
      var v := Get(RowRecord(headers, cells), col);
      && v.Some?
      && (BaseHeader(col) !in headers ==> v.value == "")
      && forall i | 0 <= i < |headers| && headers[i] == BaseHeader(col) && BaseHeader(col) !in headers[..i] ::
           v.value == if i >= |cells| then "" else ColumnValue(headers, cells, col)
  {
    DirectColumnsDistinct();
    GetDistinct(RowRecord(headers, cells), k);
  }

  /**
   * `Website` and `LinkedIn` hold at most one link: the `href` of the first anchor carrying
   * the label, or '' when there is no such anchor or its `href` is empty.
   */
  lemma LabelledLinkSpec(cell: Cell, aria: string)
    ensures var v := LabelledLink(cell, aria);
      && (v != "" <==> exists i | 0 <= i < |cell.anchors| ::
                         && cell.anchors[i].ariaLabel == Some(aria) && cell.anchors[i].href != ""
                         && forall j | 0 <= j < i :: cell.anchors[j].ariaLabel != Some(aria))
      && forall i | 0 <= i < |cell.anchors| && cell.anchors[i].ariaLabel == Some(aria)
                    && (forall j | 0 <= j < i :: cell.anchors[j].ariaLabel != Some(aria)) ::
           v == cell.anchors[i].href
  {
    var a := FirstLabelled(cell.anchors, aria);
    forall i | 0 <= i < |cell.anchors| && cell.anchors[i].ariaLabel == Some(aria)
               && (forall j | 0 <= j < i :: cell.anchors[j].ariaLabel != Some(aria))
      ensures a == Some(cell.anchors[i])
    {
      var w :| 0 <= w < |cell.anchors| && cell.anchors[w] == a.value && cell.anchors[w].ariaLabel == Some(aria)
               && forall j | 0 <= j < w :: cell.anchors[j].ariaLabel != Some(aria);
      assert w == i;
    }
  }

  /**
   * `Founder LinkedIn` lists each distinct link once, at its first occurrence: the anchor
   * links that mention linkedin.com, then the buttons' matches made into full URLs.
   */
  lemma FounderLinksSpec(cell: Cell)
    ensures var l := FounderLinks(cell);
      && Distinct(l)
      && (forall x :: x in l <==> (x in Hrefs(cell) && x != "" && Includes(x, "linkedin.com"))
                                  || exists m | m in cell.onclickMatches :: x == FullUrl(m))
      && forall i, j | 0 <= i < j < |l| ::
           IndexOf(FounderCandidates(cell), l[i]) < IndexOf(FounderCandidates(cell), l[j])
  {
    var c := FounderCandidates(cell);
    DedupFirstSpec(c);
    forall x ensures x in OnclickLinkedIn(cell.onclickMatches) <==> exists m | m in cell.onclickMatches :: x == FullUrl(m) {
      if x in OnclickLinkedIn(cell.onclickMatches) {
        var i :| 0 <= i < |cell.onclickMatches| && OnclickLinkedIn(cell.onclickMatches)[i] == x;
        assert cell.onclickMatches[i] in cell.onclickMatches;
      }
    }
  }

  /** A joined `Founder LinkedIn` value gives the links back when split on ','. */
  lemma FounderLinksSplit(cell: Cell)
    requires FounderLinks(cell) != []
    requires forall x | x in FounderCandidates(cell) :: ',' !in x
    ensures Split(Join(FounderLinks(cell), ","), ',') == FounderLinks(cell)
  {
    DedupFirstSpec(FounderCandidates(cell));
    SplitJoin(FounderLinks(cell), ',');
  }
}
