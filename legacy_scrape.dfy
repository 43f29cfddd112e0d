/**
 * The older content script (content.js at the repository root): `scrapeLatkaTable` keeps
 * every row of the Latka table, header included, as a list of cell data, with the
 * Interview column removed; the panel's preview reads cells by position.
 */
module LegacyScrape {
  import opened JsText
  import opened SeqUtil
  import opened Page
  import opened CellLinks
  import SidebarScrape

  /** A header cell whose trimmed, lower-cased text mentions 'interview'. */
  predicate IsInterviewHeader(c: Cell) {
    Includes(Lower(Trim(c.text)), "interview")
  }

  /** The last Interview header's position, or -1 when there is none. */
  function InterviewIndex(header: seq<Cell>): (k: int)
    ensures -1 <= k < |header|
    ensures k >= 0 ==> IsInterviewHeader(header[k])
    ensures forall j | k < j < |header| :: !IsInterviewHeader(header[j])
    decreases |header|
  {
    if |header| == 0 then -1
    else if IsInterviewHeader(header[|header| - 1]) then |header| - 1
    else InterviewIndex(header[..|header| - 1])
  }

  /** The `forEach` over the header cells that keeps the last match. */
  method FindInterviewColumn(rows: TableRows) returns (index: int)
    ensures index == if |rows| == 0 then -1 else InterviewIndex(rows[0])
  {
    index := -1;
    if |rows| > 0 {
      var header := rows[0];
      var i := 0;
      while i < |header|
        invariant 0 <= i <= |header|
        invariant index == InterviewIndex(header[..i])
      {
        assert header[..i + 1][..i] == header[..i];
        if Includes(Lower(Trim(header[i].text)), "interview") {
          index := i;
        }
        i := i + 1;
      }
      assert header[..i] == header;
    }
  }

  /** What `extractCellData` returns for a cell. */
  function DataOf(c: Cell): CellData {
    CellData(Trim(c.text), LinksOf(Hrefs(c)))
  }

  /** The cell data of a row, without the cell at the Interview position. */
  function RowOut(cells: seq<Cell>, ix: int): seq<CellData>
    decreases |cells|
  {
    if |cells| == 0 then []
    else
      var init := RowOut(cells[..|cells| - 1], ix);
      if |cells| - 1 == ix then init else init + [DataOf(cells[|cells| - 1])]
  }

  /** The rows' cell data, rows left without cells omitted. */
  function Kept(rows: TableRows, ix: int): seq<seq<CellData>>
    decreases |rows|
  {
    if |rows| == 0 then []
    else
      var init := Kept(rows[..|rows| - 1], ix);
      var out := RowOut(rows[|rows| - 1], ix);
      if |out| > 0 then init + [out] else init
  }

  /** What `scrapeLatkaTable` returns for the Latka table, or for a page without it. */
  function Scraped(table: Option<TableRows>): seq<seq<CellData>> {
    match table
    case None => []
    case Some(rows) => Kept(rows, if |rows| == 0 then -1 else InterviewIndex(rows[0]))
  }

  /** `scrapeLatkaTable`, with its loop over the rows. */
  method ScrapeLatkaTable(table: Option<TableRows>) returns (data: seq<seq<CellData>>)
    ensures data == Scraped(table)
  {
    if table.None? {
      return [];
    }
    var rows := table.value;
    var ix := FindInterviewColumn(rows);
    data := [];
    var r := 0;
    while r < |rows|
      invariant 0 <= r <= |rows|
      invariant data == Kept(rows[..r], ix)
    {
      assert rows[..r + 1][..r] == rows[..r];
      var rowData := ScrapeRow(rows[r], ix);
      if |rowData| > 0 {
        data := data + [rowData];
      }
      r := r + 1;
    }
    assert rows[..r] == rows;
  }

  /** The loop over one row's cells, skipping the Interview position. */
  method ScrapeRow(cells: seq<Cell>, ix: int) returns (rowData: seq<CellData>)
    ensures rowData == RowOut(cells, ix)
  {
    rowData := [];
    var j := 0;
    while j < |cells|
      invariant 0 <= j <= |cells|
      invariant rowData == RowOut(cells[..j], ix)
    {
      assert cells[..j + 1][..j] == cells[..j];
      if j != ix {
        var cellData := ExtractCellData(cells[j]);
        rowData := rowData + [cellData];
      }
      j := j + 1;
    }
    assert cells[..j] == cells;
  }

  /** The position in a row of the `j`-th cell kept. */
  function Source(ix: int, j: nat): nat {
    if ix < 0 || j < ix then j else j + 1
  }

  /**
   * Dropping the Interview cell: a row loses exactly the cell at that position, when it has
   * one, and the other cells keep their order.
   */
  lemma {:induction false} RowOutSpec(cells: seq<Cell>, ix: int)
    ensures |RowOut(cells, ix)| == |cells| - (if 0 <= ix < |cells| then 1 else 0)
    ensures forall j | 0 <= j < |RowOut(cells, ix)| ::
              Source(ix, j) < |cells| && RowOut(cells, ix)[j] == DataOf(cells[Source(ix, j)])
    decreases |cells|
  {
    if |cells| > 0 {
      var n := |cells| - 1;
      var init := cells[..n];
      RowOutSpec(init, ix);
      var prev := RowOut(init, ix);
      var r := RowOut(cells, ix);
      assert r == if n == ix then prev else prev + [DataOf(cells[n])];
      forall j | 0 <= j < |r| ensures Source(ix, j) < |cells| && r[j] == DataOf(cells[Source(ix, j)]) {
        if j < |prev| {
          assert r[j] == prev[j];
          assert init[Source(ix, j)] == cells[Source(ix, j)];
        } else {
          assert Source(ix, j) == n;
        }
      }
    }
  }

  /** Every row's cell data, before empty rows are omitted. */
  function Outs(rows: TableRows, ix: int): (o: seq<seq<CellData>>)
    ensures |o| == |rows|
    ensures forall i | 0 <= i < |rows| :: o[i] == RowOut(rows[i], ix)
  {
    seq(|rows|, i requires 0 <= i < |rows| => RowOut(rows[i], ix))
  }

  /** The filter test of `scrapeLatkaTable`: a row with at least one cell left. */
  predicate NonEmptyRow(o: seq<CellData>) {
    o != []
  }

  /** `Kept` is the filter of every row's cell data by that test. */
  lemma {:induction false} KeptFilter(rows: TableRows, ix: int)
    ensures Kept(rows, ix) == Filter(Outs(rows, ix), NonEmptyRow)
    decreases |rows|
  {
    if |rows| > 0 {
      var n := |rows| - 1;
      KeptFilter(rows[..n], ix);
      assert Outs(rows, ix)[..n] == Outs(rows[..n], ix);
    }
  }

  /**
   * Omitting empty rows: the result is the non-empty rows' cell data, every one of them,
   * in table order.
   */
  lemma KeptSpec(rows: TableRows, ix: int) returns (idx: seq<nat>)
    ensures PicksInOrder(idx, Kept(rows, ix), Outs(rows, ix))
    ensures forall i | 0 <= i < |rows| && RowOut(rows[i], ix) != [] :: i in idx
    ensures forall k | 0 <= k < |Kept(rows, ix)| :: Kept(rows, ix)[k] != []
  {
    KeptFilter(rows, ix);
    idx := FilterSpec(Outs(rows, ix), NonEmptyRow);
    forall k | 0 <= k < |Kept(rows, ix)| ensures Kept(rows, ix)[k] != [] {
      assert idx[k] in idx;
    }
  }

  /** When the header row keeps a cell, it is the first element of the result. */
  lemma HeaderFirst(rows: TableRows)
    requires |rows| > 0 && RowOut(rows[0], InterviewIndex(rows[0])) != []
    ensures Scraped(Some(rows)) != [] && Scraped(Some(rows))[0] == RowOut(rows[0], InterviewIndex(rows[0]))
  {
    var ix := InterviewIndex(rows[0]);
    var idx := KeptSpec(rows, ix);
    assert 0 in idx;
    assert idx[0] == 0;
  }

  /** `cell?.text`: the text of the cell at a position, if the row has one. */
  function TextAt(row: seq<CellData>, j: nat): Option<string> {
    if j < |row| then Some(row[j].text) else None
  }

  /** One preview line: cells 1, 2 and 11 as name, revenue and team size. */
  function PreviewOf(row: seq<CellData>): SidebarScrape.PreviewRow {
    SidebarScrape.PreviewRow(SidebarScrape.OrNA(TextAt(row, 1)), SidebarScrape.OrNA(TextAt(row, 2)),
                             SidebarScrape.OrNA(TextAt(row, 11)))
  }

  /** `scrapedTableData.slice(0, 5).map(...)`; the header row is among the five. */
  function Preview(data: seq<seq<CellData>>): seq<SidebarScrape.PreviewRow> {
    var n := if |data| < 5 then |data| else 5;
    seq(n, i requires 0 <= i < n => PreviewOf(data[i]))
  }

  /** The text of the cell at a position, or '' when the row is shorter. */
  function CellText(row: seq<CellData>, j: nat): string {
    if j < |row| then row[j].text else ""
  }

  /**
   * The preview shows the first five rows; name, revenue and team size show the text of
   * cells 1, 2 and 11, and read 'N/A' exactly when the row has no such cell or its text is
   * empty or itself 'N/A'.
   */
  lemma PreviewSpec(data: seq<seq<CellData>>)
    ensures |Preview(data)| == if |data| < 5 then |data| else 5
    ensures forall i | 0 <= i < |Preview(data)| ::
              && SidebarScrape.ShownOrNA(Preview(data)[i].name, CellText(data[i], 1))
              && SidebarScrape.ShownOrNA(Preview(data)[i].revenue, CellText(data[i], 2))
              && SidebarScrape.ShownOrNA(Preview(data)[i].teamSize, CellText(data[i], 11))
  {
  }

  /** The panel's module state, with the company count it shows. */
  class LegacyPanel {
    var scrapedTableData: seq<seq<CellData>>
    var hasScrapedData: bool
    var companiesCount: int

    constructor ()
      ensures scrapedTableData == [] && !hasScrapedData && companiesCount == 0
    {
      scrapedTableData := [];
      hasScrapedData := false;
      companiesCount := 0;
    }

    /**
     * The scraping step of `startScraping`: stores the rows and records whether there were
     * any. When there were, the count shown becomes the number of rows less the header row;
     * when there were none, the count shown is left as it was. Returns the preview displayed.
     */
    method StartScraping(table: Option<TableRows>) returns (preview: seq<SidebarScrape.PreviewRow>)
      modifies this
      ensures scrapedTableData == Scraped(table)
      ensures hasScrapedData <==> |scrapedTableData| > 0
      ensures preview == Preview(scrapedTableData)
      ensures companiesCount == if hasScrapedData then |scrapedTableData| - 1 else old(companiesCount)
    {
      scrapedTableData := ScrapeLatkaTable(table);
      if |scrapedTableData| > 0 {
        preview := Preview(scrapedTableData);
        companiesCount := |scrapedTableData| - 1;
        hasScrapedData := true;
      } else {
        preview := [];
        hasScrapedData := false;
      }
    }
  }
}
