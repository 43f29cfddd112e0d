/**
 * The sidebar's scraper (src/content/sidebar.js): `scrapeLatkaTable` turns every row below
 * the header of the page's first table into a record of eleven requested columns,
 * `flattenToValues` turns records into the grid sent to the sheet, and the sidebar keeps
 * the last scrape in its module state.
 */
module SidebarScrape {
  import opened JsText
  import opened SeqUtil
  import opened Page
  import DedupWriter

  /** `requestedColumns`, in order. */
  const SidebarColumns: seq<string> :=
    ["Name", "company_links", "Funding", "Valuation", "Growth", "Founder", "founder_links",
     "Team Size", "Founded", "Location", "Industry"]

  /** The header whose cell a requested column reads. */
  function BaseHeader(col: string): string {
    if col == "Name" || col == "company_links" then "Name"
    else if col == "Founder" || col == "founder_links" then "Founder"
    else col
  }

  predicate IsLinkColumn(col: string) {
    col == "company_links" || col == "founder_links"
  }

  /** The value of one requested column in one row. */
  function ColumnValue(headers: seq<string>, cells: seq<Cell>, col: string): string {
    var idx := IndexOf(headers, BaseHeader(col));
    if idx > -1 && idx < |cells| then
      if IsLinkColumn(col) then Join(Hrefs(cells[idx]), ",") else Trim(cells[idx].text)
    else ""
  }

  /** The fields of the given requested columns, in order. */
  function ColumnFields(headers: seq<string>, cells: seq<Cell>, cols: seq<string>): (r: Record)
    ensures Keys(r) == cols
  {
    seq(|cols|, i requires 0 <= i < |cols| => Field(cols[i], ColumnValue(headers, cells, cols[i])))
  }

  /** The record of one data row. */
  function RowRecord(headers: seq<string>, cells: seq<Cell>): Record {
    ColumnFields(headers, cells, SidebarColumns)
  }

  /** The records of data rows, in order. */
  function RowRecords(headers: seq<string>, rows: TableRows): (rs: seq<Record>)
    ensures |rs| == |rows|
    ensures forall i | 0 <= i < |rows| :: rs[i] == RowRecord(headers, rows[i])
    decreases |rows|
  {
    if |rows| == 0 then []
    else RowRecords(headers, rows[..|rows| - 1]) + [RowRecord(headers, rows[|rows| - 1])]
  }

  /** What `scrapeLatkaTable` returns for the page's first table, or for a page without one. */
  function Scraped(table: Option<TableRows>): seq<Record> {
    match table
    case None => []
    case Some(rows) => if |rows| == 0 then [] else RowRecords(HeaderTexts(rows[0]), rows[1..])
  }

  lemma SidebarColumnsDistinct()
    ensures Distinct(SidebarColumns)
  {
  }

  /** `scrapeLatkaTable`, with its loops over rows and requested columns. */
  method ScrapeLatkaTable(table: Option<TableRows>) returns (records: seq<Record>)
    ensures records == Scraped(table)
  {
    if table.None? {
      return [];
    }
    var rows := table.value;
    records := [];
    if |rows| > 0 {
      var headers := HeaderTexts(rows[0]);
      var r := 1;
      while r < |rows|
        invariant 1 <= r <= |rows|
        invariant records == RowRecords(headers, rows[1..r])
      {
        var rowData := ScrapeRow(headers, rows[r]);
        assert rows[1..r + 1] == rows[1..r] + [rows[r]];
        records := records + [rowData];
        r := r + 1;
      }
    }
  }

  /** The body of the loop over data rows: both passes over the requested columns. */
  method ScrapeRow(headers: seq<string>, cells: seq<Cell>) returns (rowData: Record)
    ensures rowData == RowRecord(headers, cells)
  {
    SidebarColumnsDistinct();
    rowData := SetColumns(headers, cells, SidebarColumns);
    // The second pass finds nothing missing: the first set every requested column.
    rowData := AddMissing(rowData, SidebarColumns);
  }

  /** The first pass: `rowData[col] = value` for each requested column in turn. */
  method SetColumns(headers: seq<string>, cells: seq<Cell>, cols: seq<string>) returns (rowData: Record)
    requires Distinct(cols)
    ensures rowData == ColumnFields(headers, cells, cols)
  {
    rowData := [];
    var c := 0;
    while c < |cols|
      invariant 0 <= c <= |cols|
      invariant rowData == ColumnFields(headers, cells, cols[..c])
    {
      var col := cols[c];
      var cellIndex := IndexOf(headers, BaseHeader(col));
      var value := "";
      if cellIndex > -1 && cellIndex < |cells| {
        if col == "company_links" || col == "founder_links" {
          value := Join(Hrefs(cells[cellIndex]), ",");
        } else {
          value := Trim(cells[cellIndex].text);
        }
      }
      assert value == ColumnValue(headers, cells, col);
      SetColumnStep(headers, cells, cols, c);
      rowData := Put(rowData, col, value);
      c := c + 1;
    }
    assert cols[..|cols|] == cols;
  }

  /** Setting the next requested column appends its field after the ones already set. */
  lemma SetColumnStep(headers: seq<string>, cells: seq<Cell>, cols: seq<string>, c: nat)
    requires Distinct(cols) && c < |cols|
    ensures Put(ColumnFields(headers, cells, cols[..c]), cols[c], ColumnValue(headers, cells, cols[c]))
            == ColumnFields(headers, cells, cols[..c + 1])
  {
    var r := ColumnFields(headers, cells, cols[..c]);
    var f := Field(cols[c], ColumnValue(headers, cells, cols[c]));
    assert cols[c] !in Keys(r) by {
      assert Keys(r) == cols[..c];
    }
    PutNew(r, cols[c], f.value);
    var next := ColumnFields(headers, cells, cols[..c + 1]);
    assert |next| == c + 1;
    forall i | 0 <= i < c ensures next[i] == r[i] {
      assert cols[..c + 1][i] == cols[..c][i];
    }
    assert next[c] == f;
    assert next == r + [f];
  }

  /**
   * No table gives no records; otherwise there is one record per row below the header,
   * each with exactly the requested columns, in order.
   */
  lemma ScrapedShape(table: Option<TableRows>)
    ensures table.None? ==> Scraped(table) == []
    ensures table.Some? ==> |Scraped(table)| == if |table.value| == 0 then 0 else |table.value| - 1
    ensures forall i | 0 <= i < |Scraped(table)| :: Keys(Scraped(table)[i]) == SidebarColumns
  {
  }

  /**
   * Where a column's value comes from: `Name` and `company_links` read the first cell under
   * the header "Name", `Founder` and `founder_links` the first under "Founder", any other
   * column the first under its own name. Without that header, or past the row's last cell,
   * the value is ''. Link columns hold every anchor `href` joined by ','; the others the
   * cell's trimmed text.
   */
  lemma RowRecordValue(headers: seq<string>, cells: seq<Cell>, k: nat)
    requires k < |SidebarColumns|
    ensures var col := SidebarColumns[k];
      var v := Get(RowRecord(headers, cells), col);
      && v.Some?
      && (BaseHeader(col) !in headers ==> v.value == "")
      && forall i | 0 <= i < |headers| && headers[i] == BaseHeader(col) && BaseHeader(col) !in headers[..i] ::
           v.value == if i >= |cells| then ""
                      else if IsLinkColumn(col) then Join(Hrefs(cells[i]), ",")
                      else Trim(cells[i].text)
  {
    SidebarColumnsDistinct();
    GetDistinct(RowRecord(headers, cells), k);
  }

  /** A link column gives back the cell's `href`s, in order, when split on ','. */
  lemma LinkColumnSplits(cell: Cell)
    requires |cell.anchors| > 0
    requires forall i | 0 <= i < |cell.anchors| :: ',' !in cell.anchors[i].href
    ensures Split(Join(Hrefs(cell), ","), ',') == Hrefs(cell)
  {
    SplitJoin(Hrefs(cell), ',');
  }

  /** One line of the sidebar's preview. */
  datatype PreviewRow = PreviewRow(name: string, revenue: string, teamSize: string)

  /** `value || 'N/A'`. */
  function OrNA(v: Option<string>): string {
    if v.Some? && v.value != "" then v.value else "N/A"
  }

  function PreviewOf(r: Record): PreviewRow {
    PreviewRow(OrNA(Get(r, "Name")), OrNA(Get(r, "Funding")), OrNA(Get(r, "Team Size")))
  }

  /** `scrapedTableData.slice(0, 5).map(...)`. */
  function Preview(records: seq<Record>): seq<PreviewRow> {
    var n := if |records| < 5 then |records| else 5;
    seq(n, i requires 0 <= i < n => PreviewOf(records[i]))
  }

  /**
   * The preview shows the first five records, in order; each of its three fields is 'N/A'
   * exactly when the record has no non-empty value under that field's column, and is that
   * value otherwise.
   */
  lemma PreviewSpec(records: seq<Record>)
    ensures |Preview(records)| == if |records| < 5 then |records| else 5
    ensures forall i | 0 <= i < |Preview(records)| ::
              && ShownOrNA(Preview(records)[i].name, ValueOr(records[i], "Name"))
              && ShownOrNA(Preview(records)[i].revenue, ValueOr(records[i], "Funding"))
              && ShownOrNA(Preview(records)[i].teamSize, ValueOr(records[i], "Team Size"))
  {
    forall i | 0 <= i < |Preview(records)|
      ensures ShownOrNA(Preview(records)[i].name, ValueOr(records[i], "Name"))
      ensures ShownOrNA(Preview(records)[i].revenue, ValueOr(records[i], "Funding"))
      ensures ShownOrNA(Preview(records)[i].teamSize, ValueOr(records[i], "Team Size"))
    {
      assert Preview(records)[i] == PreviewOf(records[i]);
      OrNAShown(Get(records[i], "Name"));
      OrNAShown(Get(records[i], "Funding"));
      OrNAShown(Get(records[i], "Team Size"));
    }
  }

  /** `value || 'N/A'` shows the value, or 'N/A' exactly when it is missing, empty or 'N/A'. */
  lemma OrNAShown(v: Option<string>)
    ensures ShownOrNA(OrNA(v), if v.Some? then v.value else "")
  {
  }

  /** A preview field shows `value`, or 'N/A' exactly when `value` is empty or itself 'N/A'. */
  predicate ShownOrNA(shown: string, value: string) {
    && (shown == "N/A" <==> value in {"", "N/A"})
    && (shown != "N/A" ==> shown == value)
  }

  /** The grid `flattenToValues` builds. */
  function Flatten(data: seq<Record>): DedupWriter.Grid {
    if |data| == 0 then []
    else
      var headers := Keys(data[0]);
      [headers] + seq(|data|, i requires 0 <= i < |data| => ValuesUnder(data[i], headers))
  }

  /**
   * `flattenToValues`: nothing for no records; otherwise the first record's keys, then one
   * row per record with its value under each key, '' when missing or empty. Every row has
   * the header's width.
   */
  lemma FlattenSpec(data: seq<Record>)
    ensures data == [] ==> Flatten(data) == []
    ensures data != [] ==>
              var g := Flatten(data);
              && |g| == |data| + 1
              && g[0] == Keys(data[0])
              && DedupWriter.Rectangular(g, |data[0]|)
              && forall i, j | 0 <= i < |data| && 0 <= j < |data[0]| :: g[i + 1][j] == ValueOr(data[i], data[0][j].key)
  {
  }

  /** `flattenToValues`, with its loop over the records. */
  method FlattenToValues(data: seq<Record>) returns (result: DedupWriter.Grid)
    ensures result == Flatten(data)
  {
    if |data| == 0 {
      return [];
    }
    ghost var g := Flatten(data);
    var headers := Keys(data[0]);
    result := [headers];
    var i := 0;
    while i < |data|
      invariant 0 <= i <= |data|
      invariant result == g[..i + 1]
    {
      var rowValues := seq(|headers|, j requires 0 <= j < |headers| => ValueOr(data[i], headers[j]));
      assert rowValues == g[i + 1];
      assert g[..i + 2] == g[..i + 1] + [g[i + 1]];
      result := result + [rowValues];
      i := i + 1;
    }
    assert g[..|data| + 1] == g;
  }

  /**
   * What the sidebar exports: a scrape with at least one record flattens to a rectangular
   * grid of eleven columns whose first row is the requested column names.
   */
  lemma ExportGrid(table: Option<TableRows>)
    requires Scraped(table) != []
    ensures var g := Flatten(Scraped(table));
      g[0] == SidebarColumns && DedupWriter.Rectangular(g, |SidebarColumns|)
  {
    ScrapedShape(table);
    FlattenSpec(Scraped(table));
  }

  /**
   * The sidebar's module state: the last scrape, whether it found anything, and the
   * company count the panel shows.
   */
  class Sidebar {
    var scrapedTableData: seq<Record>
    var hasScrapedData: bool
    var companiesCount: int

    constructor ()
      ensures scrapedTableData == [] && !hasScrapedData && companiesCount == 0
    {
      scrapedTableData := [];
      hasScrapedData := false;
      companiesCount := 0;
    }

    /**
     * The scraping step of `startScraping`: stores the scrape and records whether it found
     * anything. When it did, the count shown becomes the number of records; when it did
     * not, the count shown is left as it was. Returns the preview displayed.
     */
    method StartScraping(table: Option<TableRows>) returns (preview: seq<PreviewRow>)
      modifies this
      ensures scrapedTableData == Scraped(table)
      ensures hasScrapedData <==> |scrapedTableData| > 0
      ensures preview == Preview(scrapedTableData)
      ensures companiesCount == if hasScrapedData then |scrapedTableData| else old(companiesCount)
    {
      scrapedTableData := ScrapeLatkaTable(table);
      if |scrapedTableData| > 0 {
        preview := Preview(scrapedTableData);
        companiesCount := |scrapedTableData|;
        hasScrapedData := true;
      } else {
        preview := [];
        hasScrapedData := false;
      }
    }

    /** `setScrapedTableData`: replaces the records and leaves the flag and the count alone. */
    method SetScrapedTableData(data: seq<Record>)
      modifies this
      ensures scrapedTableData == data && hasScrapedData == old(hasScrapedData)
      ensures companiesCount == old(companiesCount)
    {
      scrapedTableData := data;
    }
  }
}
