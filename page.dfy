/**
 * What the scrapers read from a Latka page, already extracted from the DOM: the rows of a
 * table as cells, each cell with its text, its anchors in document order and the LinkedIn
 * matches found in its buttons' `onclick` handlers. The records the scrapers build are
 * ordered lists of fields, as a JavaScript object keeps its keys in insertion order (for
 * keys that are not array indices, which no column name here is).
 */
module Page {
  import opened JsText
  import opened SeqUtil

  /** An `<a>` element: its resolved `href` ("" when it has none) and its `aria-label`, if any. */
  datatype Anchor = Anchor(href: string, ariaLabel: Option<string>)

  /**
   * A `<th>` or `<td>` cell: its text, its anchors, and the matches of
   * `/linkedin\.com\/[^'")]+/gi` in the `onclick` of each of its buttons, in order.
   */
  datatype Cell = Cell(text: string, anchors: seq<Anchor>, onclickMatches: seq<string>)

  /** The `<tr>` rows of a table, each as its `th, td` cells. */
  type TableRows = seq<seq<Cell>>

  /** The `href` of every anchor of a cell, in document order. */
  function Hrefs(cell: Cell): (hs: seq<string>)
    ensures |hs| == |cell.anchors|
    ensures forall i | 0 <= i < |hs| :: hs[i] == cell.anchors[i].href
  {
    seq(|cell.anchors|, i requires 0 <= i < |cell.anchors| => cell.anchors[i].href)
  }

  /** The header texts of a row, trimmed. */
  function HeaderTexts(row: seq<Cell>): (hs: seq<string>)
    ensures |hs| == |row|
    ensures forall i | 0 <= i < |hs| :: hs[i] == Trim(row[i].text)
  {
    seq(|row|, i requires 0 <= i < |row| => Trim(row[i].text))
  }

  /** One property of a record. */
  datatype Field = Field(key: string, value: string)

  /** A scraped record: its properties in insertion order. */
  type Record = seq<Field>

  /** `Object.keys(record)`. */
  function Keys(r: Record): (ks: seq<string>)
    ensures |ks| == |r|
    ensures forall i | 0 <= i < |r| :: ks[i] == r[i].key
  {
    seq(|r|, i requires 0 <= i < |r| => r[i].key)
  }

  /** `record[key]`: the value stored under `key`, or nothing (`undefined`). */
  function Get(r: Record, key: string): (v: Option<string>)
    ensures v.Some? <==> key in Keys(r)
    ensures v.Some? ==> exists i | 0 <= i < |r| :: r[i].key == key && r[i].value == v.value
    decreases |r|
  {
    if |r| == 0 then None
    else if r[0].key == key then Some(r[0].value)
    else
      var v := Get(r[1..], key);
      assert Keys(r) == [r[0].key] + Keys(r[1..]);
      assert v.Some? ==> exists i | 0 <= i < |r[1..]| :: r[1..][i].key == key && r[1..][i].value == v.value;
      v
  }

  /** `record[key] || ''`: the stored string, or "" when there is none. */
  function ValueOr(r: Record, key: string): string {
    match Get(r, key)
    case Some(v) => v
    case None => ""
  }

  /** `keys.map(k => record[k] || '')`: the record's values under the given keys, in order. */
  function ValuesUnder(r: Record, keys: seq<string>): (vs: seq<string>)
    ensures |vs| == |keys|
  {
    seq(|keys|, j requires 0 <= j < |keys| => ValueOr(r, keys[j]))
  }

  /** In a record whose keys are distinct, `Get` finds the value of the field with that key. */
  lemma {:induction false} GetDistinct(r: Record, i: nat)
    requires i < |r| && Distinct(Keys(r))
    ensures Get(r, r[i].key) == Some(r[i].value)
  {
    if i > 0 {
      var tail := r[1..];
      assert Keys(r)[0] != Keys(r)[i];
      assert tail[i - 1] == r[i];
      assert Keys(tail) == Keys(r)[1..];
      GetDistinct(tail, i - 1);
      assert Get(r, r[i].key) == Get(tail, r[i].key);
    }
  }

  /**
   * `record[key] = value`: the property keeps its place when it exists, and is added
   * after the others when it does not.
   */
  function Put(r: Record, key: string, value: string): Record
    decreases |r|
  {
    if |r| == 0 then [Field(key, value)]
    else if r[0].key == key then [Field(key, value)] + r[1..]
    else [r[0]] + Put(r[1..], key, value)
  }

  /** Setting a key the record does not have appends it. */
  lemma {:induction false} PutNew(r: Record, key: string, value: string)
    requires key !in Keys(r)
    ensures Put(r, key, value) == r + [Field(key, value)]
    decreases |r|
  {
    if |r| > 0 {
      assert Keys(r[1..]) == Keys(r)[1..];
      assert key != r[0].key && key !in Keys(r[1..]);
      PutNew(r[1..], key, value);
      assert [r[0]] + (r[1..] + [Field(key, value)]) == r + [Field(key, value)];
    }
  }

  /**
   * `cols.forEach(c => { if (!record.hasOwnProperty(c)) record[c] = ''; })`: the record
   * keeps its fields and gains, with value '', each column it lacked, once.
   */
  method AddMissing(record: Record, cols: seq<string>) returns (r: Record)
    ensures record <= r
    ensures forall c | c in cols :: c in Keys(r)
    ensures forall i | |record| <= i < |r| :: r[i].key in cols && r[i].value == ""
    ensures forall i | |record| <= i < |r| :: r[i].key !in Keys(record)
    ensures forall i, j | |record| <= i < j < |r| :: r[i].key != r[j].key
    ensures (forall c | c in cols :: c in Keys(record)) ==> r == record
  {
    r := record;
    var k := 0;
    while k < |cols|
      invariant 0 <= k <= |cols|
      invariant record <= r
      invariant forall c | c in Keys(record) :: c in Keys(r)
      invariant forall c | c in cols[..k] :: c in Keys(r)
      invariant forall i | |record| <= i < |r| :: r[i].key in cols && r[i].value == ""
      invariant forall i | |record| <= i < |r| :: r[i].key !in Keys(record)
      invariant forall i, j | |record| <= i < j < |r| :: r[i].key != r[j].key
      invariant (forall c | c in cols :: c in Keys(record)) ==> r == record
    {
      if cols[k] !in Keys(r) {
        ghost var prev := r;
        r := r + [Field(cols[k], "")];
        assert Keys(r) == Keys(prev) + [cols[k]];
      }
      assert cols[k] in Keys(r);
      assert cols[..k + 1] == cols[..k] + [cols[k]];
      k := k + 1;
    }
    assert cols[..k] == cols;
  }
}
