/**
 * The Apps Script web app behind the export (webscript.js): `doPost` appends a batch of
 * rows to one sheet, skipping copies of the header row and rows whose normalised
 * "unique by" key is already on the sheet or earlier in the batch.
 *
 * The sheet is a grid of strings, row 1 being the header. Rows may be ragged; a cell
 * past the end of its row reads as "". The sheet's extent is its stored cells, those
 * holding "" included: `getLastRow()` is the number of rows and `getLastColumn()` the
 * length of the longest row. The document lock serialises calls,
 * so one call of `Sheet.DoPost` is one atomic step; `Post` is the same step as a
 * function of the sheet before the call.
 */
module DedupWriter {
  import opened JsText
  import opened SeqUtil

  type Row = seq<string>
  type Grid = seq<Row>

  /** An entry of `uniqueBy`: a finite number, a column name, or anything else (ignored). */
  datatype Selector = Position(n: int) | ColumnName(name: string) | Unusable

  /** The parsed JSON body of the POST request, with the defaults already applied. */
  datatype Request = Request(
    values: Grid,
    uniqueBy: seq<Selector>,
    caseInsensitive: bool,
    doTrim: bool,
    clear: bool,
    hasHeader: bool)

  /** Why Apps Script threw while writing: a range of zero columns, or rows of another width. */
  datatype WriteError = EmptyHeaderRange | WidthMismatch

  /** `{ok: true, wrote, skipped, headerSkipped, total}` or `{ok: false, error}`. */
  datatype Response =
    | Counts(wrote: nat, skipped: nat, headerSkipped: nat, total: nat)
    | Failure(error: WriteError)

  /** The sheet after a call, and the call's answer. */
  datatype Outcome = Outcome(sheet: Grid, response: Response)

  datatype KeyOptions = KeyOptions(caseInsensitive: bool, doTrim: bool)

  // ---------------------------------------------------------------------------
  // Reading the sheet

  /** `row[c]`, with a missing cell read as "". */
  function CellAt(row: Row, c: nat): string {
    if c < |row| then row[c] else ""
  }

  /** `getLastColumn()`, taken as the length of the longest row. */
  function LastColumn(g: Grid): (w: nat)
    ensures forall i | 0 <= i < |g| :: |g[i]| <= w
    ensures |g| > 0 ==> exists i | 0 <= i < |g| :: |g[i]| == w
    ensures |g| == 0 ==> w == 0
    decreases |g|
  {
    if |g| == 0 then 0
    else
      var rest := LastColumn(g[1..]);
      assert forall i | 1 <= i < |g| :: g[i] == g[1..][i - 1];
      if |g[0]| >= rest then |g[0]| else rest
  }

  /** `getRange(r, 1, 1, width).getValues()[0]`: a row read at a given width. */
  function ReadRow(row: Row, width: nat): (r: Row)
    ensures |r| == width
    ensures forall c | 0 <= c < width :: r[c] == CellAt(row, c)
  {
    seq(width, c requires 0 <= c < width => CellAt(row, c))
  }

  function ReadRows(g: Grid, width: nat): (r: Grid)
    ensures |r| == |g|
    ensures forall i | 0 <= i < |g| :: r[i] == ReadRow(g[i], width)
  {
    seq(|g|, i requires 0 <= i < |g| => ReadRow(g[i], width))
  }

  /** Some cell is not blank after trimming (`header.some(v => String(v).trim() !== "")`). */
  predicate HasText(row: Row) {
    exists i | 0 <= i < |row| :: Trim(row[i]) != ""
  }

  /**
   * `_getHeaderRow`: row 1 read at the sheet's width when one of its cells has text,
   * and the empty row otherwise.
   */
  function HeaderRow(g: Grid): (h: Row)
    ensures h != [] ==> |g| > 0 && |h| == LastColumn(g) && HasText(h)
    ensures h != [] ==> forall c | 0 <= c < |h| :: h[c] == CellAt(g[0], c)
    ensures h == [] <==> |g| == 0 || !HasText(g[0])
  {
    var lc := LastColumn(g);
    if |g| < 1 || lc == 0 then
      assert |g| > 0 ==> |g[0]| == 0;
      []
    else
      var h := ReadRow(g[0], lc);
      assert HasText(h) <==> HasText(g[0]) by {
        if HasText(g[0]) {
          var i :| 0 <= i < |g[0]| && Trim(g[0][i]) != "";
          assert h[i] == g[0][i];
        }
        if HasText(h) {
          var i :| 0 <= i < |h| && Trim(h[i]) != "";
          assert i < |g[0]|;
        }
      }
      if HasText(h) then h else []
  }

  // ---------------------------------------------------------------------------
  // Keys and header comparison

  /** The per-cell normalisation of `_makeKey`: trim if asked, then lower-case if asked. */
  function Normalize(v: string, opts: KeyOptions): string {
    var t := if opts.doTrim then Trim(v) else v;
    if opts.caseInsensitive then Lower(t) else t
  }

  function KeyParts(row: Row, cols: seq<nat>, opts: KeyOptions): (parts: seq<string>)
    ensures |parts| == |cols|
    ensures forall i | 0 <= i < |cols| :: parts[i] == Normalize(CellAt(row, cols[i]), opts)
  {
    seq(|cols|, i requires 0 <= i < |cols| => Normalize(CellAt(row, cols[i]), opts))
  }

  /** `_makeKey`: the normalised selected cells joined with "||", trimmed; "" without columns. */
  function MakeKey(row: Row, cols: seq<nat>, opts: KeyOptions): (k: string)
    ensures |cols| == 0 ==> k == ""
    ensures k == Trim(k)
  {
    TrimIdempotent(Join(KeyParts(row, cols, opts), "||"));
    if |cols| == 0 then "" else Trim(Join(KeyParts(row, cols, opts), "||"))
  }

  /**
   * The key depends only on the selected cells after normalisation: rows that differ
   * only elsewhere, or (with the default options) only in case or surrounding white
   * space in the selected cells, share their key.
   */
  lemma MakeKeySelected(a: Row, b: Row, cols: seq<nat>, opts: KeyOptions)
    requires forall i | 0 <= i < |cols| ::
               Normalize(CellAt(a, cols[i]), opts) == Normalize(CellAt(b, cols[i]), opts)
    ensures MakeKey(a, cols, opts) == MakeKey(b, cols, opts)
  {
    assert KeyParts(a, cols, opts) == KeyParts(b, cols, opts);
  }

  /** Reading a row back at any width at least its own gives the same key. */
  lemma MakeKeyReadBack(row: Row, width: nat, cols: seq<nat>, opts: KeyOptions)
    requires |row| <= width
    ensures MakeKey(ReadRow(row, width), cols, opts) == MakeKey(row, cols, opts)
  {
    forall i | 0 <= i < |cols|
      ensures CellAt(ReadRow(row, width), cols[i]) == CellAt(row, cols[i])
    {
    }
    MakeKeySelected(ReadRow(row, width), row, cols, opts);
  }

  /** The comparison `_rowsEqual` applies to each pair of cells. */
  function Fold(s: string): string {
    Lower(Trim(s))
  }

  /** The loop of `_rowsEqual` from position `i` on. */
  function CellsMatchFrom(a: Row, b: Row, i: nat): bool
    requires |a| == |b|
    decreases |a| - i
  {
    i >= |a| || (Fold(a[i]) == Fold(b[i]) && CellsMatchFrom(a, b, i + 1))
  }

  /** `_rowsEqual`: false on a length mismatch, else every pair of cells must match. */
  function RowsEqual(a: Row, b: Row): bool {
    |a| == |b| && CellsMatchFrom(a, b, 0)
  }

  lemma {:induction false} CellsMatchFromIff(a: Row, b: Row, i: nat)
    requires |a| == |b|
    ensures CellsMatchFrom(a, b, i) <==> forall j | i <= j < |a| :: Fold(a[j]) == Fold(b[j])
    decreases |a| - i
  {
    if i < |a| {
      CellsMatchFromIff(a, b, i + 1);
    }
  }

  /** Rows are equal exactly when they have one length and match cell by cell after trim and lower-case. */
  lemma {:induction false} RowsEqualIff(a: Row, b: Row)
    ensures RowsEqual(a, b) <==> |a| == |b| && forall j | 0 <= j < |a| :: Fold(a[j]) == Fold(b[j])
  {
    if |a| == |b| {
      CellsMatchFromIff(a, b, 0);
    }
  }

  /** Header comparison is an equivalence: reflexive, symmetric and transitive. */
  lemma {:induction false} RowsEqualEquivalence(a: Row, b: Row, c: Row)
    ensures RowsEqual(a, a)
    ensures RowsEqual(a, b) ==> RowsEqual(b, a)
    ensures RowsEqual(a, b) && RowsEqual(b, c) ==> RowsEqual(a, c)
  {
    RowsEqualIff(a, a);
    RowsEqualIff(a, b);
    RowsEqualIff(b, a);
    RowsEqualIff(b, c);
    RowsEqualIff(a, c);
  }

  // ---------------------------------------------------------------------------
  // Resolving the "unique by" selectors

  /** The `nameMap` of `_resolveUniqueCols`: folded header name to column; a later column wins. */
  function NameMap(header: Row): map<string, nat>
    decreases |header|
  {
    if |header| == 0 then map[]
    else NameMap(header[..|header| - 1])[Fold(header[|header| - 1]) := |header| - 1]
  }

  lemma {:induction false} NameMapSpec(header: Row, k: string)
    ensures k in NameMap(header) <==> exists i | 0 <= i < |header| :: Fold(header[i]) == k
    ensures k in NameMap(header) ==>
              var c := NameMap(header)[k];
              c < |header| && Fold(header[c]) == k && forall j | c < j < |header| :: Fold(header[j]) != k
    decreases |header|
  {
    if |header| > 0 {
      var n := |header| - 1;
      var init := header[..n];
      NameMapSpec(init, k);
      assert forall i | 0 <= i < n :: init[i] == header[i];
      assert NameMap(header) == NameMap(init)[Fold(header[n]) := n];
      if Fold(header[n]) != k {
        if i :| 0 <= i < |header| && Fold(header[i]) == k {
          assert Fold(init[i]) == k;
        }
      }
    }
  }

  /** The column one selector contributes, if any. */
  function SelectorColumn(u: Selector, names: map<string, nat>): Option<nat> {
    match u
    case Position(n) =>
      var i := if n >= 1 then n - 1 else n;   // 1-based, or 0
      if i >= 0 then Some(i) else None
    case ColumnName(s) =>
      if Fold(s) in names then Some(names[Fold(s)]) else None
    case Unusable => None
  }

  /** The `cols` array before the Set round trip, built selector by selector. */
  function RawColumns(uniqueBy: seq<Selector>, names: map<string, nat>): seq<nat>
    decreases |uniqueBy|
  {
    if |uniqueBy| == 0 then []
    else
      var init := RawColumns(uniqueBy[..|uniqueBy| - 1], names);
      match SelectorColumn(uniqueBy[|uniqueBy| - 1], names)
      case Some(c) => init + [c]
      case None => init
  }

  /** What `_resolveUniqueCols` returns. */
  function ResolvedColumns(uniqueBy: seq<Selector>, header: Row): seq<nat> {
    DedupFirst(RawColumns(uniqueBy, NameMap(header)))
  }

  lemma {:induction false} RawColumnsSpec(uniqueBy: seq<Selector>, names: map<string, nat>, c: nat)
    ensures c in RawColumns(uniqueBy, names) <==>
              exists k | 0 <= k < |uniqueBy| :: SelectorColumn(uniqueBy[k], names) == Some(c)
    decreases |uniqueBy|
  {
    if |uniqueBy| > 0 {
      var init := uniqueBy[..|uniqueBy| - 1];
      RawColumnsSpec(init, names, c);
      assert forall k | 0 <= k < |init| :: init[k] == uniqueBy[k];
    }
  }

  /**
   * Numeric selectors: a number n >= 1 names column n-1 and 0 names column 0, each of
   * which is then among the resolved columns, held once.
   */
  lemma ResolvedPositions(uniqueBy: seq<Selector>, header: Row)
    ensures Distinct(ResolvedColumns(uniqueBy, header))
    ensures forall k | 0 <= k < |uniqueBy| && uniqueBy[k].Position? && uniqueBy[k].n >= 1 ::
              uniqueBy[k].n - 1 in ResolvedColumns(uniqueBy, header)
    ensures forall k | 0 <= k < |uniqueBy| && uniqueBy[k] == Position(0) ::
              0 in ResolvedColumns(uniqueBy, header)
  {
    var names := NameMap(header);
    DedupFirstSpec(RawColumns(uniqueBy, names));
    forall k | 0 <= k < |uniqueBy| && uniqueBy[k].Position? && uniqueBy[k].n >= 0
      ensures SelectorColumn(uniqueBy[k], names) == Some(if uniqueBy[k].n >= 1 then uniqueBy[k].n - 1 else 0)
      ensures (if uniqueBy[k].n >= 1 then uniqueBy[k].n - 1 else 0) in ResolvedColumns(uniqueBy, header)
    {
      RawColumnsSpec(uniqueBy, names, if uniqueBy[k].n >= 1 then uniqueBy[k].n - 1 else 0);
    }
  }

  /**
   * Every resolved column comes from some selector: a usable number, or a name whose
   * trimmed, lower-cased text equals that of the last header column with that text.
   */
  lemma ResolvedOrigins(uniqueBy: seq<Selector>, header: Row, c: nat)
    requires c in ResolvedColumns(uniqueBy, header)
    ensures exists k | 0 <= k < |uniqueBy| :: SelectorColumn(uniqueBy[k], NameMap(header)) == Some(c)
  {
    DedupFirstSpec(RawColumns(uniqueBy, NameMap(header)));
    RawColumnsSpec(uniqueBy, NameMap(header), c);
  }

  /**
   * A name selector picks the last header column whose trimmed, lower-cased text equals
   * the trimmed, lower-cased name, and picks nothing when no column has it.
   */
  lemma ResolvedName(header: Row, name: string)
    ensures SelectorColumn(ColumnName(name), NameMap(header)).Some? <==>
              exists i | 0 <= i < |header| :: Fold(header[i]) == Fold(name)
    ensures SelectorColumn(ColumnName(name), NameMap(header)).Some? ==>
              var c := SelectorColumn(ColumnName(name), NameMap(header)).value;
              c < |header| && Fold(header[c]) == Fold(name) &&
              forall j | c < j < |header| :: Fold(header[j]) != Fold(name)
  {
    NameMapSpec(header, Fold(name));
  }

  /** `_resolveUniqueCols`, with its two loops and the Set round trip. */
  method ResolveUniqueCols(uniqueBy: seq<Selector>, header: Row) returns (cols: seq<nat>)
    ensures cols == ResolvedColumns(uniqueBy, header)
    ensures Distinct(cols)
  {
    if |uniqueBy| == 0 {
      return [];
    }
    var nameMap: map<string, nat> := map[];
    var h := 0;
    while h < |header|
      invariant 0 <= h <= |header|
      invariant nameMap == NameMap(header[..h])
    {
      assert header[..h + 1][..h] == header[..h];
      nameMap := nameMap[Fold(header[h]) := h];
      h := h + 1;
    }
    assert header[..|header|] == header;
    var raw: seq<nat> := [];
    var k := 0;
    while k < |uniqueBy|
      invariant 0 <= k <= |uniqueBy|
      invariant raw == RawColumns(uniqueBy[..k], nameMap)
    {
      assert uniqueBy[..k + 1][..k] == uniqueBy[..k];
      match uniqueBy[k] {
        case Position(n) =>
          var i := if n >= 1 then n - 1 else n;
          if i >= 0 {
            raw := raw + [i];
          }
        case ColumnName(s) =>
          var key := Fold(s);
          if key in nameMap {
            raw := raw + [nameMap[key]];
          }
        case Unusable =>
      }
      k := k + 1;
    }
    assert uniqueBy[..|uniqueBy|] == uniqueBy;
    // `[...new Set(cols)].filter((i) => i >= 0)`; every column is already a nat.
    cols := DedupFirst(raw);
    DedupFirstSpec(raw);
  }

  // ---------------------------------------------------------------------------
  // The pass over the incoming rows

  /** The keys of a list of rows (`existingKeys.add(...)` for each). */
  function KeysOf(g: Grid, cols: seq<nat>, opts: KeyOptions): set<string> {
    Image(g, row => MakeKey(row, cols, opts))
  }

  lemma KeysOfSpec(g: Grid, cols: seq<nat>, opts: KeyOptions, k: string)
    ensures k in KeysOf(g, cols, opts) <==> exists i | 0 <= i < |g| :: MakeKey(g[i], cols, opts) == k
  {
    ImageSpec(g, row => MakeKey(row, cols, opts), k);
  }

  /** The state of the loop over `values`: staged rows, known keys and the two counters. */
  datatype Plan = Plan(toWrite: Grid, keys: set<string>, skipped: nat, headerSkipped: nat)

  /** One turn of the loop: header copy, empty key, duplicate key, or a new row. */
  function Admit(p: Plan, row: Row, header: Row, cols: seq<nat>, opts: KeyOptions): Plan {
    if |header| > 0 && RowsEqual(row, header) then p.(headerSkipped := p.headerSkipped + 1)
    else
      var key := MakeKey(row, cols, opts);
      if key == "" then p
      else if key in p.keys then p.(skipped := p.skipped + 1)
      else Plan(p.toWrite + [row], p.keys + {key}, p.skipped, p.headerSkipped)
  }

  /** The loop over `values`, starting from the keys already on the sheet. */
  function PlanRows(values: Grid, header: Row, cols: seq<nat>, opts: KeyOptions, existing: set<string>): Plan
    decreases |values|
  {
    if |values| == 0 then Plan([], existing, 0, 0)
    else Admit(PlanRows(values[..|values| - 1], header, cols, opts, existing), values[|values| - 1], header, cols, opts)
  }

  predicate IsHeaderCopy(row: Row, header: Row) {
    |header| > 0 && RowsEqual(row, header)
  }

  /** One turn either stages the row under a new, non-empty key, or leaves the staged rows and keys alone. */
  lemma AdmitStep(p: Plan, row: Row, header: Row, cols: seq<nat>, opts: KeyOptions)
    ensures var q := Admit(p, row, header, cols, opts);
      var key := MakeKey(row, cols, opts);
      && |q.toWrite| + q.skipped + q.headerSkipped <= |p.toWrite| + p.skipped + p.headerSkipped + 1
      && (IsHeaderCopy(row, header) || key == "" || key in q.keys)
      && ((q.toWrite == p.toWrite && q.keys == p.keys)
          || (q.toWrite == p.toWrite + [row] && q.keys == p.keys + {key}
              && key != "" && key !in p.keys && !IsHeaderCopy(row, header)))
  {
  }

  /** Keys of a list grown by one row. */
  lemma KeysOfSnoc(g: Grid, row: Row, cols: seq<nat>, opts: KeyOptions)
    ensures KeysOf(g + [row], cols, opts) == KeysOf(g, cols, opts) + {MakeKey(row, cols, opts)}
  {
    assert (g + [row])[..|g|] == g;
  }

  /** How many rows of `values` are copies of the header. */
  function HeaderCopies(values: Grid, header: Row): nat
    decreases |values|
  {
    if |values| == 0 then 0
    else HeaderCopies(values[..|values| - 1], header) + if IsHeaderCopy(values[|values| - 1], header) then 1 else 0
  }

  /** How many rows of `values` are no header copies but have an empty key. */
  function Keyless(values: Grid, header: Row, cols: seq<nat>, opts: KeyOptions): nat
    decreases |values|
  {
    if |values| == 0 then 0
    else
      var row := values[|values| - 1];
      Keyless(values[..|values| - 1], header, cols, opts)
        + if !IsHeaderCopy(row, header) && MakeKey(row, cols, opts) == "" then 1 else 0
  }

  /**
   * The tally: `headerSkipped` counts the header copies, and every other row is written,
   * skipped as a duplicate, or (with an empty key) counted nowhere.
   */
  lemma {:induction false} PlanCounts(values: Grid, header: Row, cols: seq<nat>, opts: KeyOptions, existing: set<string>)
    ensures var p := PlanRows(values, header, cols, opts, existing);
      && |p.toWrite| + p.skipped + p.headerSkipped + Keyless(values, header, cols, opts) == |values|
      && p.headerSkipped == HeaderCopies(values, header)
    decreases |values|
  {
    if |values| > 0 {
      var init := values[..|values| - 1];
      PlanCounts(init, header, cols, opts, existing);
    }
  }

  /** A header copy anywhere in the batch is counted. */
  lemma {:induction false} HeaderCopiesPositive(values: Grid, header: Row, i: nat)
    requires i < |values| && IsHeaderCopy(values[i], header)
    ensures HeaderCopies(values, header) >= 1
    decreases |values|
  {
    if i < |values| - 1 {
      HeaderCopiesPositive(values[..|values| - 1], header, i);
    }
  }

  /** The known keys are the sheet's plus those of the staged rows. */
  lemma {:induction false} PlanKeys(values: Grid, header: Row, cols: seq<nat>, opts: KeyOptions, existing: set<string>)
    ensures var p := PlanRows(values, header, cols, opts, existing);
      p.keys == existing + KeysOf(p.toWrite, cols, opts)
    decreases |values|
  {
    if |values| > 0 {
      var init := values[..|values| - 1];
      var row := values[|values| - 1];
      PlanKeys(init, header, cols, opts, existing);
      var p0 := PlanRows(init, header, cols, opts, existing);
      AdmitStep(p0, row, header, cols, opts);
      KeysOfSnoc(p0.toWrite, row, cols, opts);
    }
  }

  /**
   * Staged rows have non-empty keys, new to the sheet and pairwise distinct, and are no
   * header copies.
   */
  lemma PlanStaged(values: Grid, header: Row, cols: seq<nat>, opts: KeyOptions, existing: set<string>)
    ensures var p := PlanRows(values, header, cols, opts, existing);
      && (forall i | 0 <= i < |p.toWrite| ::
            MakeKey(p.toWrite[i], cols, opts) != "" && MakeKey(p.toWrite[i], cols, opts) !in existing)
      && (forall i | 0 <= i < |p.toWrite| :: !IsHeaderCopy(p.toWrite[i], header))
      && (forall i, j | 0 <= i < j < |p.toWrite| ::
            MakeKey(p.toWrite[i], cols, opts) != MakeKey(p.toWrite[j], cols, opts))
  {
    StagedFresh(values, header, cols, opts, existing);
    StagedNoHeader(values, header, cols, opts, existing);
    StagedDistinct(values, header, cols, opts, existing);
    var p := PlanRows(values, header, cols, opts, existing);
    assert forall i | 0 <= i < |p.toWrite| :: p.toWrite[i] in p.toWrite;
  }

  lemma {:induction false} StagedFresh(values: Grid, header: Row, cols: seq<nat>, opts: KeyOptions, existing: set<string>)
    ensures var p := PlanRows(values, header, cols, opts, existing);
      forall i | 0 <= i < |p.toWrite| ::
        MakeKey(p.toWrite[i], cols, opts) != "" && MakeKey(p.toWrite[i], cols, opts) !in existing
    decreases |values|
  {
    if |values| > 0 {
      var init := values[..|values| - 1];
      StagedFresh(init, header, cols, opts, existing);
      PlanKeys(init, header, cols, opts, existing);
      AdmitStep(PlanRows(init, header, cols, opts, existing), values[|values| - 1], header, cols, opts);
    }
  }

  lemma {:induction false} StagedNoHeader(values: Grid, header: Row, cols: seq<nat>, opts: KeyOptions, existing: set<string>)
    ensures forall row | row in PlanRows(values, header, cols, opts, existing).toWrite :: !IsHeaderCopy(row, header)
    decreases |values|
  {
    if |values| > 0 {
      var init := values[..|values| - 1];
      StagedNoHeader(init, header, cols, opts, existing);
      AdmitStep(PlanRows(init, header, cols, opts, existing), values[|values| - 1], header, cols, opts);
    }
  }

  lemma {:induction false} StagedDistinct(values: Grid, header: Row, cols: seq<nat>, opts: KeyOptions, existing: set<string>)
    ensures var p := PlanRows(values, header, cols, opts, existing);
      forall i, j | 0 <= i < j < |p.toWrite| ::
        MakeKey(p.toWrite[i], cols, opts) != MakeKey(p.toWrite[j], cols, opts)
    decreases |values|
  {
    if |values| > 0 {
      var init := values[..|values| - 1];
      var row := values[|values| - 1];
      StagedDistinct(init, header, cols, opts, existing);
      PlanKeys(init, header, cols, opts, existing);
      var p0 := PlanRows(init, header, cols, opts, existing);
      AdmitStep(p0, row, header, cols, opts);
      var p := PlanRows(values, header, cols, opts, existing);
      if p.toWrite != p0.toWrite {
        forall i | 0 <= i < |p0.toWrite| ensures MakeKey(p0.toWrite[i], cols, opts) in p0.keys {
          KeysOfSpec(p0.toWrite, cols, opts, MakeKey(p0.toWrite[i], cols, opts));
        }
      }
    }
  }

  /** Every row seen is a header copy, has an empty key, or has a key now known. */
  lemma {:induction false} PlanCovers(values: Grid, header: Row, cols: seq<nat>, opts: KeyOptions, existing: set<string>)
    ensures var p := PlanRows(values, header, cols, opts, existing);
      forall i | 0 <= i < |values| ::
        IsHeaderCopy(values[i], header) || MakeKey(values[i], cols, opts) == ""
        || MakeKey(values[i], cols, opts) in p.keys
    decreases |values|
  {
    if |values| > 0 {
      var init := values[..|values| - 1];
      var row := values[|values| - 1];
      PlanCovers(init, header, cols, opts, existing);
      var p0 := PlanRows(init, header, cols, opts, existing);
      AdmitStep(p0, row, header, cols, opts);
      assert forall i | 0 <= i < |init| :: init[i] == values[i];
    }
  }

  /** The staged rows are picked out of `values` in submission order. */
  lemma {:induction false} PlanOrder(values: Grid, header: Row, cols: seq<nat>, opts: KeyOptions, existing: set<string>)
    returns (idx: seq<nat>)
    ensures PicksInOrder(idx, PlanRows(values, header, cols, opts, existing).toWrite, values)
    decreases |values|
  {
    if |values| == 0 {
      idx := [];
    } else {
      var init := values[..|values| - 1];
      var before := PlanOrder(init, header, cols, opts, existing);
      var p0 := PlanRows(init, header, cols, opts, existing);
      var p := PlanRows(values, header, cols, opts, existing);
      if p.toWrite == p0.toWrite {
        idx := before;
      } else {
        idx := before + [|values| - 1];
      }
    }
  }

  /** A batch all of whose rows are header copies, keyless or already known stages nothing. */
  lemma {:induction false} PlanNothingNew(values: Grid, header: Row, cols: seq<nat>, opts: KeyOptions, existing: set<string>)
    requires forall i | 0 <= i < |values| ::
               IsHeaderCopy(values[i], header) || MakeKey(values[i], cols, opts) == ""
               || MakeKey(values[i], cols, opts) in existing
    ensures PlanRows(values, header, cols, opts, existing).toWrite == []
    ensures PlanRows(values, header, cols, opts, existing).keys == existing
    decreases |values|
  {
    if |values| > 0 {
      var init := values[..|values| - 1];
      assert forall i | 0 <= i < |init| :: init[i] == values[i];
      PlanNothingNew(init, header, cols, opts, existing);
    }
  }

  // ---------------------------------------------------------------------------
  // The whole call

  /** Everything `doPost` derives from the sheet and the request before its main loop. */
  datatype Setup = Setup(
    sheet: Grid,               // after clearing and seeding the header
    header: Row,               // `sheetHeader`
    cols: seq<nat>,            // `uniqueCols`
    opts: KeyOptions,
    lastCol: nat,
    existing: set<string>)     // `existingKeys` before the loop

  function Cleared(sheet: Grid, req: Request): Grid {
    if req.clear then [] else sheet
  }

  /** The sheet is empty (after clearing) and the caller asked to seed the header. */
  predicate Seeds(sheet: Grid, req: Request) {
    |Cleared(sheet, req)| == 0 && req.hasHeader
  }

  function DataRows(g: Grid): Grid {
    if |g| > 0 then g[1..] else []
  }

  /** `uniqueCols`: the resolved selectors, or column 0 when none resolves. */
  function KeyColumns(uniqueBy: seq<Selector>, header: Row): (cols: seq<nat>)
    ensures |cols| > 0 && Distinct(cols)
  {
    ResolvedPositions(uniqueBy, header);
    var resolved := ResolvedColumns(uniqueBy, header);
    if |resolved| > 0 then resolved else [0]
  }

  function SetUp(sheet: Grid, req: Request): Setup
    requires |req.values| > 0
  {
    var cleared := Cleared(sheet, req);
    var seeded := Seeds(sheet, req);
    var prepared := if seeded then [req.values[0]] else cleared;
    var header := if seeded then req.values[0] else HeaderRow(cleared);
    var cols := KeyColumns(req.uniqueBy, header);
    var opts := KeyOptions(req.caseInsensitive, req.doTrim);
    var lastCol := Max(LastColumn(prepared), |req.values[0]|);
    Setup(prepared, header, cols, opts, lastCol, KeysOf(ReadRows(DataRows(prepared), lastCol), cols, opts))
  }

  /** The pass over the batch of a call, from what the call set up. */
  function Planned(sheet: Grid, req: Request): Plan
    requires |req.values| > 0
  {
    var s := SetUp(sheet, req);
    PlanRows(req.values, s.header, s.cols, s.opts, s.existing)
  }

  /**
   * The single `setValues` at the end of `doPost`: nothing to write answers the counts;
   * otherwise the staged rows go below the prepared sheet, unless some row's width is not
   * the range's width (or that width is 0), when Apps Script throws.
   */
  function Commit(prepared: Grid, lastCol: nat, p: Plan, total: nat): (out: Outcome)
    ensures out.response.Counts? ==>
              out.sheet == prepared + p.toWrite && out.response == Counts(|p.toWrite|, p.skipped, p.headerSkipped, total)
    ensures out.response.Failure? ==> out.sheet == prepared && out.response.error == WidthMismatch
    ensures lastCol > 0 && (forall i | 0 <= i < |p.toWrite| :: |p.toWrite[i]| == lastCol) ==> out.response.Counts?
  {
    if |p.toWrite| == 0 then
      assert prepared + p.toWrite == prepared;
      Outcome(prepared, Counts(0, p.skipped, p.headerSkipped, total))
    else
      var width := Max(lastCol, |p.toWrite[0]|);
      if width == 0 || exists r | r in p.toWrite :: |r| != width then Outcome(prepared, Failure(WidthMismatch))
      else Outcome(prepared + p.toWrite, Counts(|p.toWrite|, p.skipped, p.headerSkipped, total))
  }

  /** `doPost` as a function of the sheet before the call. */
  function Post(sheet: Grid, req: Request): Outcome {
    if |req.values| == 0 then Outcome(sheet, Counts(0, 0, 0, 0))
    else if Seeds(sheet, req) && |req.values[0]| == 0 then Outcome([], Failure(EmptyHeaderRange))
    else
      var s := SetUp(sheet, req);
      Commit(s.sheet, s.lastCol, Planned(sheet, req), |req.values|)
  }

  // ---------------------------------------------------------------------------
  // What a call guarantees

  /** What the set-up of a call fixes, field by field. */
  lemma SetUpShape(sheet: Grid, req: Request)
    requires |req.values| > 0
    ensures var s := SetUp(sheet, req);
      && s.sheet == (if Seeds(sheet, req) then [req.values[0]] else Cleared(sheet, req))
      && s.header == (if Seeds(sheet, req) then req.values[0] else HeaderRow(Cleared(sheet, req)))
      && s.cols == KeyColumns(req.uniqueBy, s.header)
      && s.opts == KeyOptions(req.caseInsensitive, req.doTrim)
      && s.lastCol == Max(LastColumn(s.sheet), |req.values[0]|)
      && s.existing == KeysOf(ReadRows(DataRows(s.sheet), s.lastCol), s.cols, s.opts)
      && Planned(sheet, req) == PlanRows(req.values, s.header, s.cols, s.opts, s.existing)
      && (!Seeds(sheet, req) || |req.values[0]| > 0 ==>
            Post(sheet, req) == Commit(s.sheet, s.lastCol, Planned(sheet, req), |req.values|))
  {
  }

  /**
   * `total` is the batch size; `headerSkipped` counts the header copies; every other row
   * is written, skipped as a duplicate, or, with an empty key, counted nowhere. An empty
   * batch answers all zeros and leaves the sheet as it was.
   */
  lemma PostCounts(sheet: Grid, req: Request)
    ensures |req.values| == 0 ==> Post(sheet, req) == Outcome(sheet, Counts(0, 0, 0, 0))
    ensures |req.values| > 0 && Post(sheet, req).response.Counts? ==>
              var r := Post(sheet, req).response;
              var s := SetUp(sheet, req);
              && r.total == |req.values|
              && r.wrote + r.skipped + r.headerSkipped + Keyless(req.values, s.header, s.cols, s.opts) == r.total
              && r.headerSkipped == HeaderCopies(req.values, s.header)
  {
    if |req.values| > 0 {
      var s := SetUp(sheet, req);
      SetUpShape(sheet, req);
      PlanCounts(req.values, s.header, s.cols, s.opts, s.existing);
    }
  }

  /** A non-empty row is a header copy of itself. */
  lemma SelfHeaderCopy(row: Row)
    requires |row| > 0
    ensures IsHeaderCopy(row, row)
  {
    RowsEqualEquivalence(row, row, row);
  }

  /** The staged rows are picked from the batch in order, and none is a header copy. */
  lemma PlanPicks(values: Grid, header: Row, cols: seq<nat>, opts: KeyOptions, existing: set<string>)
    returns (idx: seq<nat>)
    ensures PicksInOrder(idx, PlanRows(values, header, cols, opts, existing).toWrite, values)
    ensures forall k | 0 <= k < |idx| :: idx[k] < |values| && !IsHeaderCopy(values[idx[k]], header)
  {
    idx := PlanOrder(values, header, cols, opts, existing);
    var toWrite := PlanRows(values, header, cols, opts, existing).toWrite;
    forall k | 0 <= k < |idx| ensures !IsHeaderCopy(values[idx[k]], header) {
      assert values[idx[k]] == toWrite[k];
      StagedNotHeader(values, header, cols, opts, existing, k);
    }
  }

  lemma StagedNotHeader(values: Grid, header: Row, cols: seq<nat>, opts: KeyOptions, existing: set<string>, k: nat)
    requires k < |PlanRows(values, header, cols, opts, existing).toWrite|
    ensures !IsHeaderCopy(PlanRows(values, header, cols, opts, existing).toWrite[k], header)
  {
    PlanStaged(values, header, cols, opts, existing);
  }

  /** On a sheet that is not seeded, the call keeps the prepared rows and appends staged rows in order. */
  lemma AppendPlain(sheet: Grid, req: Request) returns (idx: seq<nat>)
    requires |req.values| > 0 && !Seeds(sheet, req)
    ensures Cleared(sheet, req) <= Post(sheet, req).sheet
    ensures PicksInOrder(idx, Post(sheet, req).sheet[|Cleared(sheet, req)|..], req.values)
  {
    var s := SetUp(sheet, req);
    SetUpShape(sheet, req);
    var p := Planned(sheet, req);
    var out := Post(sheet, req);
    var picked := PlanPicks(req.values, s.header, s.cols, s.opts, s.existing);
    if out.response.Counts? {
      idx := picked;
      assert out.sheet[|s.sheet|..] == p.toWrite;
    } else {
      idx := [];
      assert out.sheet[|s.sheet|..] == [];
    }
  }

  /** What a seeding call writes: `values[0]`, then the staged rows when the write succeeds. */
  lemma SeededOutcome(sheet: Grid, req: Request) returns (p: Plan)
    requires |req.values| > 0 && Seeds(sheet, req) && |req.values[0]| > 0
    ensures var s := SetUp(sheet, req);
      p == PlanRows(req.values, req.values[0], s.cols, s.opts, s.existing)
    ensures var out := Post(sheet, req);
      && out.sheet == [req.values[0]] + (if out.response.Counts? then p.toWrite else [])
      && (out.response.Counts? ==> out.response.headerSkipped == p.headerSkipped)
  {
    SetUpShape(sheet, req);
    p := Planned(sheet, req);
  }

  /**
   * A batch led by its own header row counts that row as a copy, and below the header
   * nothing staged equals it.
   */
  lemma HeaderLedPlan(values: Grid, cols: seq<nat>, opts: KeyOptions, existing: set<string>, written: Grid)
    requires |values| > 0 && |values[0]| > 0
    requires written == [values[0]] || written == [values[0]] + PlanRows(values, values[0], cols, opts, existing).toWrite
    ensures PlanRows(values, values[0], cols, opts, existing).headerSkipped >= 1
    ensures forall i | 1 <= i < |written| :: !RowsEqual(written[i], values[0])
  {
    var header := values[0];
    var p := PlanRows(values, header, cols, opts, existing);
    SelfHeaderCopy(header);
    HeaderCopiesPositive(values, header, 0);
    PlanCounts(values, header, cols, opts, existing);
    forall i | 1 <= i < |written| ensures !RowsEqual(written[i], header) {
      assert written[i] == p.toWrite[i - 1];
      StagedNotHeader(values, header, cols, opts, existing, i - 1);
    }
  }

  /** Seeding an empty sheet writes `values[0]`, then staged rows picked in order from the rest of the batch. */
  lemma AppendSeeded(sheet: Grid, req: Request) returns (idx: seq<nat>)
    requires |req.values| > 0 && Seeds(sheet, req) && |req.values[0]| > 0
    ensures PicksInOrder(idx, Post(sheet, req).sheet, req.values)
  {
    var s := SetUp(sheet, req);
    var p := SeededOutcome(sheet, req);
    idx := HeaderLedPicks(req.values, s.cols, s.opts, s.existing, Post(sheet, req).sheet);
  }

  /** The header row followed by the staged rows (or by none) is picked from the batch in order. */
  lemma HeaderLedPicks(values: Grid, cols: seq<nat>, opts: KeyOptions, existing: set<string>, written: Grid)
    returns (idx: seq<nat>)
    requires |values| > 0 && |values[0]| > 0
    requires written == [values[0]] || written == [values[0]] + PlanRows(values, values[0], cols, opts, existing).toWrite
    ensures PicksInOrder(idx, written, values)
  {
    var header := values[0];
    if written == [header] {
      PicksCons(0, [], header, [], values);
      idx := [0];
    } else {
      var picked := PlanPicks(values, header, cols, opts, existing);
      SelfHeaderCopy(header);
      PicksCons(0, picked, header, PlanRows(values, header, cols, opts, existing).toWrite, values);
      idx := [0] + picked;
    }
  }

  /**
   * Without `clear` the rows already on the sheet stay as they are, and every row added
   * below them is a row of the batch, in submission order.
   */
  lemma PostAppendOnly(sheet: Grid, req: Request) returns (idx: seq<nat>)
    requires !req.clear
    ensures sheet <= Post(sheet, req).sheet
    ensures PicksInOrder(idx, Post(sheet, req).sheet[|sheet|..], req.values)
  {
    if |req.values| == 0 || (Seeds(sheet, req) && |req.values[0]| == 0) {
      idx := [];
    } else if Seeds(sheet, req) {
      idx := AppendSeeded(sheet, req);
      assert Post(sheet, req).sheet[|sheet|..] == Post(sheet, req).sheet;
    } else {
      idx := AppendPlain(sheet, req);
    }
  }

  /** Every data row of a sheet has its key among the keys read from it at any wider width. */
  lemma DataKeysRead(prepared: Grid, lastCol: nat, cols: seq<nat>, opts: KeyOptions)
    requires LastColumn(prepared) <= lastCol
    ensures forall d | 1 <= d < |prepared| ::
              MakeKey(prepared[d], cols, opts) in KeysOf(ReadRows(DataRows(prepared), lastCol), cols, opts)
  {
    var data := DataRows(prepared);
    forall d | 1 <= d < |prepared|
      ensures MakeKey(prepared[d], cols, opts) in KeysOf(ReadRows(data, lastCol), cols, opts)
    {
      assert data[d - 1] == prepared[d];
      MakeKeyReadBack(prepared[d], lastCol, cols, opts);
      KeysOfSpec(ReadRows(data, lastCol), cols, opts, MakeKey(prepared[d], cols, opts));
    }
  }

  /**
   * A call that succeeds writes the staged rows below the prepared sheet. No two of them
   * share a key, every written key is non-empty, and no written row's key is the key of a
   * data row already below the header.
   */
  lemma PostNoDuplicateKeys(sheet: Grid, req: Request)
    requires |req.values| > 0 && Post(sheet, req).response.Counts?
    ensures var s := SetUp(sheet, req);
      var added := Planned(sheet, req).toWrite;
      && Post(sheet, req).sheet == s.sheet + added
      && (forall i | 0 <= i < |added| :: MakeKey(added[i], s.cols, s.opts) != "")
      && (forall i, j | 0 <= i < j < |added| :: MakeKey(added[i], s.cols, s.opts) != MakeKey(added[j], s.cols, s.opts))
      && (forall i, d | 0 <= i < |added| && 1 <= d < |s.sheet| ::
            MakeKey(added[i], s.cols, s.opts) != MakeKey(s.sheet[d], s.cols, s.opts))
  {
    var s := SetUp(sheet, req);
    SetUpShape(sheet, req);
    PlanStaged(req.values, s.header, s.cols, s.opts, s.existing);
    DataKeysRead(s.sheet, s.lastCol, s.cols, s.opts);
  }

  /**
   * Seeding an empty sheet writes `values[0]` once as row 1; it is then met again as the
   * first incoming row and counted as a header copy, and no row written below it equals it.
   */
  lemma PostHeaderSeed(sheet: Grid, req: Request)
    requires |req.values| > 0 && Seeds(sheet, req) && |req.values[0]| > 0
    ensures var out := Post(sheet, req);
      && |out.sheet| >= 1 && out.sheet[0] == req.values[0]
      && (out.response.Counts? ==> out.response.headerSkipped >= 1)
      && forall i | 1 <= i < |out.sheet| :: !RowsEqual(out.sheet[i], req.values[0])
  {
    var s := SetUp(sheet, req);
    var p := SeededOutcome(sheet, req);
    HeaderLedPlan(req.values, s.cols, s.opts, s.existing, Post(sheet, req).sheet);
  }

  /** Every row has width `w`. */
  predicate Rectangular(g: Grid, w: nat) {
    forall i | 0 <= i < |g| :: |g[i]| == w
  }

  lemma ReadRowsRectangular(g: Grid, w: nat)
    requires Rectangular(g, w)
    ensures ReadRows(g, w) == g
  {
    forall i | 0 <= i < |g| ensures ReadRow(g[i], w) == g[i] { }
  }

  lemma {:induction false} KeysOfConcat(a: Grid, b: Grid, cols: seq<nat>, opts: KeyOptions)
    ensures KeysOf(a + b, cols, opts) == KeysOf(a, cols, opts) + KeysOf(b, cols, opts)
    decreases |b|
  {
    if |b| > 0 {
      var init := b[..|b| - 1];
      KeysOfConcat(a, init, cols, opts);
      assert (a + b)[..|a + b| - 1] == a + init;
    } else {
      assert a + b == a;
    }
  }

  /** On a non-empty rectangular sheet the header is row 1 itself, or empty when row 1 is blank. */
  lemma HeaderRowRectangular(g: Grid, w: nat)
    requires |g| > 0 && Rectangular(g, w)
    ensures LastColumn(g) == w
    ensures HeaderRow(g) == if HasText(g[0]) then g[0] else []
  {
    var h := HeaderRow(g);
    if h != [] {
      assert h == g[0];
    }
  }

  /**
   * The pass over a rectangular batch, from the keys of a rectangular sheet: the staged
   * rows keep the width, the sheet with them appended yields exactly the keys the pass
   * ended with, and a second pass from those keys stages nothing.
   */
  lemma ReplayPlan(prepared: Grid, w: nat, values: Grid, header: Row, cols: seq<nat>, opts: KeyOptions)
    requires |prepared| > 0 && Rectangular(prepared, w) && Rectangular(values, w)
    ensures var p := PlanRows(values, header, cols, opts, KeysOf(ReadRows(DataRows(prepared), w), cols, opts));
      && Rectangular(p.toWrite, w)
      && KeysOf(ReadRows(DataRows(prepared + p.toWrite), w), cols, opts) == p.keys
      && PlanRows(values, header, cols, opts, p.keys).toWrite == []
  {
    var existing := KeysOf(ReadRows(DataRows(prepared), w), cols, opts);
    var p := PlanRows(values, header, cols, opts, existing);
    PlanRectangular(values, header, cols, opts, existing, w);
    assert DataRows(prepared + p.toWrite) == DataRows(prepared) + p.toWrite;
    ReadRowsRectangular(DataRows(prepared + p.toWrite), w);
    ReadRowsRectangular(DataRows(prepared), w);
    KeysOfConcat(DataRows(prepared), p.toWrite, cols, opts);
    PlanKeys(values, header, cols, opts, existing);
    PlanCovers(values, header, cols, opts, existing);
    PlanNothingNew(values, header, cols, opts, p.keys);
  }

  /** The rows a pass stages from a batch of one width have that width. */
  lemma PlanRectangular(values: Grid, header: Row, cols: seq<nat>, opts: KeyOptions, existing: set<string>, w: nat)
    requires Rectangular(values, w)
    ensures Rectangular(PlanRows(values, header, cols, opts, existing).toWrite, w)
  {
    var p := PlanRows(values, header, cols, opts, existing);
    var idx := PlanOrder(values, header, cols, opts, existing);
    forall k | 0 <= k < |p.toWrite| ensures |p.toWrite[k]| == w {
      assert p.toWrite[k] == values[idx[k]];
    }
  }

  /**
   * A call on a non-empty rectangular sheet, without `clear`, whose batch has the sheet's
   * width and stages nothing from the sheet's keys, leaves the sheet alone and writes nothing.
   */
  lemma PostNothingStaged(g: Grid, req: Request, w: nat)
    requires |g| > 0 && !req.clear && w > 0 && Rectangular(g, w) && Rectangular(req.values, w) && |req.values| > 0
    requires var header := HeaderRow(g);
      var cols := KeyColumns(req.uniqueBy, header);
      var opts := KeyOptions(req.caseInsensitive, req.doTrim);
      PlanRows(req.values, header, cols, opts, KeysOf(ReadRows(DataRows(g), w), cols, opts)).toWrite == []
    ensures Post(g, req).sheet == g && Post(g, req).response.Counts? && Post(g, req).response.wrote == 0
  {
    SetUpShape(g, req);
    HeaderRowRectangular(g, w);
  }

  /**
   * The first call of a replay: it succeeds, leaves a non-empty rectangular sheet with the
   * same header, and a second pass over the batch from that sheet's keys stages nothing.
   */
  lemma ReplayFirstCall(sheet: Grid, req: Request, w: nat)
    requires w > 0 && Rectangular(sheet, w) && Rectangular(req.values, w) && |req.values| > 0
    requires |Cleared(sheet, req)| > 0 || (req.hasHeader && HasText(req.values[0]))
    ensures var out := Post(sheet, req);
      var s := SetUp(sheet, req);
      && out.response.Counts?
      && |out.sheet| > 0 && Rectangular(out.sheet, w)
      && HeaderRow(out.sheet) == s.header
      && PlanRows(req.values, s.header, s.cols, s.opts, KeysOf(ReadRows(DataRows(out.sheet), w), s.cols, s.opts)).toWrite == []
  {
    var s := SetUp(sheet, req);
    ReplaySetUp(sheet, req, w);
    ReplayCommit(s.sheet, w, req.values, s.header, s.cols, s.opts);
  }

  /**
   * The write of that first call: it succeeds, keeps the header row and the width, and a
   * second pass from the keys of the sheet it leaves stages nothing.
   */
  lemma ReplayCommit(prepared: Grid, w: nat, values: Grid, header: Row, cols: seq<nat>, opts: KeyOptions)
    requires w > 0 && |prepared| > 0 && Rectangular(prepared, w) && Rectangular(values, w)
    ensures var p := PlanRows(values, header, cols, opts, KeysOf(ReadRows(DataRows(prepared), w), cols, opts));
      var out := Commit(prepared, w, p, |values|);
      && out.response.Counts?
      && |out.sheet| > 0 && Rectangular(out.sheet, w)
      && HeaderRow(out.sheet) == HeaderRow(prepared)
      && PlanRows(values, header, cols, opts, KeysOf(ReadRows(DataRows(out.sheet), w), cols, opts)).toWrite == []
  {
    ReplayPlan(prepared, w, values, header, cols, opts);
    var p := PlanRows(values, header, cols, opts, KeysOf(ReadRows(DataRows(prepared), w), cols, opts));
    var first := Commit(prepared, w, p, |values|).sheet;
    assert first == prepared + p.toWrite;
    assert Rectangular(first, w) by {
      forall i | 0 <= i < |first| ensures |first[i]| == w {
        if i >= |prepared| {
          assert first[i] == p.toWrite[i - |prepared|];
        }
      }
    }
    assert first[0] == prepared[0];
    HeaderRowRectangular(prepared, w);
    HeaderRowRectangular(first, w);
  }

  /**
   * The set-up of that first call: a non-empty rectangular sheet whose header row is the
   * call's header, read at the common width.
   */
  lemma ReplaySetUp(sheet: Grid, req: Request, w: nat)
    requires w > 0 && Rectangular(sheet, w) && Rectangular(req.values, w) && |req.values| > 0
    requires |Cleared(sheet, req)| > 0 || (req.hasHeader && HasText(req.values[0]))
    ensures var s := SetUp(sheet, req);
      && |s.sheet| > 0 && Rectangular(s.sheet, w) && s.lastCol == w
      && HeaderRow(s.sheet) == s.header
      && s.existing == KeysOf(ReadRows(DataRows(s.sheet), w), s.cols, s.opts)
      && Post(sheet, req) == Commit(s.sheet, w, PlanRows(req.values, s.header, s.cols, s.opts, s.existing), |req.values|)
  {
    var s := SetUp(sheet, req);
    SetUpShape(sheet, req);
    assert Rectangular(s.sheet, w) && |s.sheet| > 0;
    HeaderRowRectangular(s.sheet, w);
  }

  /**
   * Replaying a batch. On a rectangular sheet and batch of one positive width, when the
   * first call has a header to go by (the sheet is not empty after clearing, or it seeds a
   * header with text), the first call succeeds, and sending the same batch again without
   * `clear` writes nothing and leaves the sheet as the first call left it.
   */
  lemma PostReplay(sheet: Grid, req: Request, w: nat)
    requires w > 0 && Rectangular(sheet, w) && Rectangular(req.values, w) && |req.values| > 0
    requires |Cleared(sheet, req)| > 0 || (req.hasHeader && HasText(req.values[0]))
    ensures Post(sheet, req).response.Counts?
    ensures var first := Post(sheet, req).sheet;
      var again := Post(first, req.(clear := false));
      again.sheet == first && again.response.Counts? && again.response.wrote == 0
  {
    ReplayFirstCall(sheet, req, w);
    SetUpShape(sheet, req);
    PostNothingStaged(Post(sheet, req).sheet, req.(clear := false), w);
  }

  /** The first loop of `doPost`: the key of every data row, read at the sheet's width. */
  method CollectKeys(data: Grid, lastCol: nat, cols: seq<nat>, opts: KeyOptions) returns (existing: set<string>)
    ensures existing == KeysOf(ReadRows(data, lastCol), cols, opts)
    ensures forall k :: k in existing <==> exists i | 0 <= i < |data| :: MakeKey(ReadRow(data[i], lastCol), cols, opts) == k
  {
    existing := {};
    var d := 0;
    while d < |data|
      invariant 0 <= d <= |data|
      invariant existing == KeysOf(ReadRows(data[..d], lastCol), cols, opts)
    {
      assert ReadRows(data[..d + 1], lastCol) == ReadRows(data[..d], lastCol) + [ReadRow(data[d], lastCol)];
      KeysOfSnoc(ReadRows(data[..d], lastCol), ReadRow(data[d], lastCol), cols, opts);
      existing := existing + {MakeKey(ReadRow(data[d], lastCol), cols, opts)};
      d := d + 1;
    }
    assert data[..|data|] == data;
    forall k ensures k in existing <==> exists i | 0 <= i < |data| :: MakeKey(ReadRow(data[i], lastCol), cols, opts) == k {
      KeysOfSpec(ReadRows(data, lastCol), cols, opts, k);
    }
  }

  /** The second loop of `doPost`: header copies, empty keys and duplicates are passed over. */
  method PlanBatch(values: Grid, header: Row, cols: seq<nat>, opts: KeyOptions, existing: set<string>)
    returns (toWrite: Grid, keys: set<string>, skipped: nat, headerSkipped: nat)
    ensures Plan(toWrite, keys, skipped, headerSkipped) == PlanRows(values, header, cols, opts, existing)
    ensures |toWrite| + skipped + headerSkipped <= |values|
    ensures forall i, j | 0 <= i < j < |toWrite| :: MakeKey(toWrite[i], cols, opts) != MakeKey(toWrite[j], cols, opts)
  {
    toWrite, keys, skipped, headerSkipped := [], existing, 0, 0;
    var i := 0;
    while i < |values|
      invariant 0 <= i <= |values|
      invariant Plan(toWrite, keys, skipped, headerSkipped) == PlanRows(values[..i], header, cols, opts, existing)
    {
      assert values[..i + 1][..i] == values[..i];
      var row := values[i];
      if |header| > 0 && RowsEqual(row, header) {
        headerSkipped := headerSkipped + 1;
      } else {
        var key := MakeKey(row, cols, opts);
        if key == "" {
        } else if key in keys {
          skipped := skipped + 1;
        } else {
          toWrite := toWrite + [row];
          keys := keys + {key};
        }
      }
      i := i + 1;
    }
    assert values[..|values|] == values;
    PlanCounts(values, header, cols, opts, existing);
    PlanStaged(values, header, cols, opts, existing);
  }

  class Sheet {
    /** The sheet's rows; `rows[0]` is row 1. */
    var rows: Grid

    constructor (initial: Grid)
      ensures rows == initial
    {
      rows := initial;
    }

    /** `doPost`, run while holding the document lock. */
    method DoPost(req: Request) returns (resp: Response)
      modifies this
      ensures Outcome(rows, resp) == Post(old(rows), req)
    {
      if |req.values| == 0 {
        return Counts(0, 0, 0, 0);
      }
      var seeded := ClearAndSeed(req);
      if seeded.None? {
        return Failure(EmptyHeaderRange);
      }
      var header := seeded.value;
      var resolved := ResolveUniqueCols(req.uniqueBy, header);
      var cols := if |resolved| > 0 then resolved else [0];
      var opts := KeyOptions(req.caseInsensitive, req.doTrim);
      var lastCol: nat := Max(LastColumn(rows), |req.values[0]|);
      ghost var s := SetUp(old(rows), req);
      assert cols == s.cols && lastCol == s.lastCol;

      var existing := CollectKeys(DataRows(rows), lastCol, cols, opts);
      var toWrite, keys, skipped, headerSkipped := PlanBatch(req.values, header, cols, opts, existing);
      assert Plan(toWrite, keys, skipped, headerSkipped) == Planned(old(rows), req);
      if |toWrite| > 0 {
        // The batch starts at max(getLastRow() + 1, ...), which is always getLastRow() + 1.
        var width := Max(lastCol, |toWrite[0]|);
        if width == 0 || exists r | r in toWrite :: |r| != width {
          return Failure(WidthMismatch);
        }
        rows := rows + toWrite;
      }
      resp := Counts(|toWrite|, skipped, headerSkipped, |req.values|);
    }

    /**
     * The start of `doPost` under the lock: clear on request, then seed `values[0]` as the
     * header of an empty sheet when asked to, which fails on an empty first row. Answers
     * `sheetHeader`, or nothing on that failure.
     */
    method ClearAndSeed(req: Request) returns (header: Option<Row>)
      requires |req.values| > 0
      modifies this
      ensures header.None? <==> Seeds(old(rows), req) && |req.values[0]| == 0
      ensures header.None? ==> rows == []
      ensures header.Some? ==> rows == SetUp(old(rows), req).sheet && header.value == SetUp(old(rows), req).header
    {
      if req.clear {
        rows := [];
      }
      header := Some(HeaderRow(rows));
      if |rows| == 0 && req.hasHeader {
        if |req.values[0]| == 0 {
          return None;
        }
        rows := [req.values[0]];
        header := Some(req.values[0]);
      }
    }
  }
}
