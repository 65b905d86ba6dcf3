/**
 * The table of metrics per filter value on the performance-analysis page:
 * how its rows are built, how its comparator keeps the overall row on top,
 * how the "see more" step is clamped near the grid's page-size limit, which
 * query parameters each row links to, and how the overall row is decorated.
 */
module PerformanceAnalysis {
  import opened Wrappers
  import opened Datasets

  /** Id of the overall row; per-filter rows take the ids 0 .. n-1. */
  const OVERALL_ROW_ID: int := -1
  /** Largest page size the free data grid accepts. */
  const MAX_PAGE_SIZE: int := 100
  /** Number of rows a see-more list shows before it is expanded. */
  const INITIAL_NUMBER_VISIBLE: int := 10
  /** The table starts with one extra visible row, for the overall row. */
  const INITIAL_PAGE_SIZE: int := INITIAL_NUMBER_VISIBLE + 1
  /** Bottom spacing under the overall row. */
  const OVERALL_ROW_SPACING: nat := 12
  /** Class name that shades the overall row. */
  const TOTAL_CLASS: string := "total"

  // ---------------------------------------------------------------------------
  // Rows.

  /** Metrics of one filter value, as sent by the back end. */
  datatype MetricsPerFilterValue = MetricsPerFilterValue(
    filterValue: string,
    utteranceCount: nat,
    outcomeCount: map<string, nat>,
    customMetrics: map<string, real>,
    ece: real)

  /** The metrics of the whole split, and the metrics per value of each filter option. */
  datatype MetricsPerFilterResponse = MetricsPerFilterResponse(
    metricsOverall: seq<MetricsPerFilterValue>,
    metricsPerFilter: map<string, seq<MetricsPerFilterValue>>)

  /** A table row: the metrics with an id. */
  datatype Row = Row(id: int, metrics: MetricsPerFilterValue)

  /**
   * The table rows: nothing while there is no data; otherwise the overall
   * record first, then the selected option's records in order, each with its
   * index as id.
   */
  function BuildRows(data: Option<MetricsPerFilterResponse>, option: string): (rows: seq<Row>)
    requires data.Some? ==> |data.value.metricsOverall| > 0 && option in data.value.metricsPerFilter
    ensures data.None? ==> rows == []
    ensures data.Some? ==>
              var perFilter := data.value.metricsPerFilter[option];
              && |rows| == 1 + |perFilter|
              && rows[0] == Row(OVERALL_ROW_ID, data.value.metricsOverall[0])
              && forall i :: 0 <= i < |perFilter| ==> rows[i + 1] == Row(i, perFilter[i])
  {
    match data
    case None => []
    case Some(response) =>
      var perFilter := response.metricsPerFilter[option];
      [Row(OVERALL_ROW_ID, response.metricsOverall[0])]
        + seq(|perFilter|, i requires 0 <= i < |perFilter| => Row(i, perFilter[i]))
  }

  /** No two rows share an id, and only the first row has the overall id. */
  lemma RowIdsDistinct(data: Option<MetricsPerFilterResponse>, option: string)
    requires data.Some? ==> |data.value.metricsOverall| > 0 && option in data.value.metricsPerFilter
    ensures var rows := BuildRows(data, option);
            && (forall i, j :: 0 <= i < j < |rows| ==> rows[i].id != rows[j].id)
            && (forall i :: 0 <= i < |rows| ==> (rows[i].id == OVERALL_ROW_ID <==> i == 0))
  {
    var rows := BuildRows(data, option);
    forall i | 0 <= i < |rows| ensures rows[i].id == i - 1 {
      if i > 0 {
        assert rows[(i - 1) + 1].id == i - 1;
      }
    }
  }

  // ---------------------------------------------------------------------------
  // Decoration of the overall row and the footer.

  /** The overall row is shaded. */
  function RowClassName(id: int): (name: string)
    ensures name == TOTAL_CLASS <==> id == OVERALL_ROW_ID
    ensures name == "" <==> id != OVERALL_ROW_ID
  {
    if id == OVERALL_ROW_ID then TOTAL_CLASS else ""
  }

  /** The overall row is set apart by a bottom spacing. */
  function RowSpacingBottom(id: int): (bottom: nat)
    ensures bottom > 0 <==> id == OVERALL_ROW_ID
    ensures bottom <= OVERALL_ROW_SPACING
  {
    if id == OVERALL_ROW_ID then OVERALL_ROW_SPACING else 0
  }

  /** The see-more footer is shown when there are more rows than the initial count. */
  function HasFooter(rowCount: nat): (shown: bool)
    ensures shown <==> rowCount >= INITIAL_PAGE_SIZE
    ensures !shown ==> rowCount <= INITIAL_NUMBER_VISIBLE
  {
    rowCount > INITIAL_NUMBER_VISIBLE
  }

  /** Exactly the first row of the table is decorated. */
  lemma OnlyFirstRowDecorated(data: Option<MetricsPerFilterResponse>, option: string, i: nat)
    requires data.Some? ==> |data.value.metricsOverall| > 0 && option in data.value.metricsPerFilter
    requires i < |BuildRows(data, option)|
    ensures var rows := BuildRows(data, option);
            && RowClassName(rows[i].id) == (if i == 0 then TOTAL_CLASS else "")
            && RowSpacingBottom(rows[i].id) == (if i == 0 then OVERALL_ROW_SPACING else 0)
  {
    RowIdsDistinct(data, option);
  }

  /**
   * The footer is shown exactly when the option has at least
   * INITIAL_NUMBER_VISIBLE records, that is, when the table has at least as
   * many rows as its initial page.
   */
  lemma FooterRule(data: Option<MetricsPerFilterResponse>, option: string)
    requires data.Some? ==> |data.value.metricsOverall| > 0 && option in data.value.metricsPerFilter
    ensures var rows := BuildRows(data, option);
            && (HasFooter(|rows|) <==> |rows| >= INITIAL_PAGE_SIZE)
            && (HasFooter(|rows|) <==>
                  data.Some? && |data.value.metricsPerFilter[option]| >= INITIAL_NUMBER_VISIBLE)
  {
  }

  // ---------------------------------------------------------------------------
  // Sorting.

  datatype SortDirection = Asc | Desc

  /** One entry of the grid's sort model; `sort` is None when the column is unsorted. */
  datatype GridSortItem = GridSortItem(field: string, sort: Option<SortDirection>)

  /** The table starts sorted by utterance count, descending. */
  const INITIAL_SORT_MODEL: seq<GridSortItem> := [GridSortItem("utteranceCount", Some(Desc))]

  /** The directions a header click cycles through; there is no unsorted state. */
  const SORTING_ORDER: seq<SortDirection> := [Desc, Asc]

  /** A sort model the table can hold: one column, sorted in a direction of SORTING_ORDER. */
  predicate SortModelInOrder(sortModel: seq<GridSortItem>)
  {
    |sortModel| == 1 && sortModel[0].sort.Some? && sortModel[0].sort.value in SORTING_ORDER
  }

  /**
   * The initial sort model is one the table can hold, it is descending, and
   * every such model meets what the comparator and the sorting lemmas require.
   */
  lemma InitialSortModelInOrder(sortModel: seq<GridSortItem>)
    requires SortModelInOrder(sortModel)
    ensures SortModelInOrder(INITIAL_SORT_MODEL) && SortSign(INITIAL_SORT_MODEL) == 1
    ensures |sortModel| > 0 && sortModel[0].sort.Some?
  {
  }

  /** What a comparator sees of a row: its id and the value of the sorted column. */
  datatype SortCell<V> = SortCell(id: int, value: V)

  /** 1 when the table is sorted descending, -1 otherwise. */
  function SortSign(sortModel: seq<GridSortItem>): (sign: int)
    requires |sortModel| > 0
    ensures sign == 1 || sign == -1
    ensures sign == 1 <==> sortModel[0].sort == Some(Desc)
  {
    if sortModel[0].sort == Some(Desc) then 1 else -1
  }

  /**
   * The comparator every column uses: the overall row compares as `sign`
   * when on the left and `-sign` when on the right; other rows fall back to
   * the grid's default comparator.
   */
  function CustomSort<V>(sortModel: seq<GridSortItem>, fallback: (V, V) -> int, a: SortCell<V>, b: SortCell<V>): (r: int)
    requires |sortModel| > 0
    ensures a.id == OVERALL_ROW_ID ==> (r > 0 <==> sortModel[0].sort == Some(Desc)) && (r == 1 || r == -1)
    ensures a.id != OVERALL_ROW_ID && b.id == OVERALL_ROW_ID ==>
              (r < 0 <==> sortModel[0].sort == Some(Desc)) && (r == 1 || r == -1)
    ensures a.id != OVERALL_ROW_ID && b.id != OVERALL_ROW_ID ==> r == fallback(a.value, b.value)
  {
    var sign := SortSign(sortModel);
    if a.id == OVERALL_ROW_ID then sign
    else if b.id == OVERALL_ROW_ID then -sign
    else fallback(a.value, b.value)
  }

  /** The grid applies a column comparator as is when ascending and negated when descending. */
  function GridOrder(direction: SortDirection, comparison: int): (order: int)
  {
    if direction == Desc then -comparison else comparison
  }

  /** In either direction the overall row sorts before any other row. */
  lemma OverallRowSortsFirst<V>(sortModel: seq<GridSortItem>, fallback: (V, V) -> int, overall: SortCell<V>, other: SortCell<V>)
    requires |sortModel| > 0 && sortModel[0].sort.Some?
    requires overall.id == OVERALL_ROW_ID && other.id != OVERALL_ROW_ID
    ensures var direction := sortModel[0].sort.value;
            && GridOrder(direction, CustomSort(sortModel, fallback, overall, other)) < 0
            && GridOrder(direction, CustomSort(sortModel, fallback, other, overall)) > 0
  {
  }

  function Sgn(x: int): (sign: int)
  {
    if x < 0 then -1 else if x > 0 then 1 else 0
  }

  /**
   * When the fallback is antisymmetric, so is the custom comparator on any
   * pair that is not twice the overall row.
   */
  lemma CustomSortAntisymmetric<V>(sortModel: seq<GridSortItem>, fallback: (V, V) -> int, a: SortCell<V>, b: SortCell<V>)
    requires |sortModel| > 0
    requires forall x, y :: Sgn(fallback(x, y)) == -Sgn(fallback(y, x))
    requires a.id != OVERALL_ROW_ID || b.id != OVERALL_ROW_ID
    ensures Sgn(CustomSort(sortModel, fallback, a, b)) == -Sgn(CustomSort(sortModel, fallback, b, a))
  {
  }

  /** `cells` is in the order the grid produces: no later cell sorts before an earlier one. */
  predicate SortedBy<V>(sortModel: seq<GridSortItem>, direction: SortDirection, fallback: (V, V) -> int, cells: seq<SortCell<V>>)
    requires |sortModel| > 0
  {
    forall i, j :: 0 <= i < j < |cells| ==> GridOrder(direction, CustomSort(sortModel, fallback, cells[i], cells[j])) <= 0
  }

  /**
   * Any order the grid can produce, in either direction, starts with the
   * overall row, and the other rows follow the fallback comparator.
   */
  lemma SortedStartsWithOverall<V>(sortModel: seq<GridSortItem>, fallback: (V, V) -> int, cells: seq<SortCell<V>>, p: nat)
    requires |sortModel| > 0 && sortModel[0].sort.Some?
    requires SortedBy(sortModel, sortModel[0].sort.value, fallback, cells)
    requires p < |cells| && cells[p].id == OVERALL_ROW_ID
    ensures cells[0].id == OVERALL_ROW_ID
    ensures forall i, j :: 0 <= i < j < |cells| && cells[i].id != OVERALL_ROW_ID && cells[j].id != OVERALL_ROW_ID ==>
              GridOrder(sortModel[0].sort.value, fallback(cells[i].value, cells[j].value)) <= 0
  {
    var direction := sortModel[0].sort.value;
    if cells[0].id != OVERALL_ROW_ID {
      assert GridOrder(direction, CustomSort(sortModel, fallback, cells[0], cells[p])) <= 0;
      OverallRowSortsFirst(sortModel, fallback, cells[p], cells[0]);
      assert false;
    }
  }

  // ---------------------------------------------------------------------------
  // Paging.

  /** The props of the see-more control; the page overwrites the step in place. */
  class SeeMoreLessProps {
    /** How many more rows the next "see more" shows. */
    var nextStepUp: int

    constructor (nextStepUp: int)
      ensures this.nextStepUp == nextStepUp
    {
      this.nextStepUp := nextStepUp;
    }
  }

  /**
   * The step after clamping: no step once more than MAX_PAGE_SIZE rows are
   * visible; a step that would go past MAX_PAGE_SIZE jumps to all the rows;
   * any other step is kept.
   */
  function ClampedStep(numberVisible: int, nextStepUp: int, rowCount: int): (step: int)
    ensures numberVisible > MAX_PAGE_SIZE ==> step == 0
    ensures numberVisible <= MAX_PAGE_SIZE ==>
              numberVisible + step <= MAX_PAGE_SIZE || numberVisible + step == rowCount
    ensures numberVisible <= MAX_PAGE_SIZE && numberVisible + nextStepUp <= MAX_PAGE_SIZE ==> step == nextStepUp
  {
    if numberVisible > MAX_PAGE_SIZE then 0
    else if numberVisible + nextStepUp > MAX_PAGE_SIZE then rowCount - numberVisible
    else nextStepUp
  }

  /** Overwrites the see-more step so that the page size never passes MAX_PAGE_SIZE short of all rows. */
  method ClampNextStepUp(props: SeeMoreLessProps, numberVisible: int, rowCount: int)
    modifies props
    ensures props.nextStepUp == ClampedStep(numberVisible, old(props.nextStepUp), rowCount)
  {
    if numberVisible > MAX_PAGE_SIZE {
      props.nextStepUp := 0;
    } else if numberVisible + props.nextStepUp > MAX_PAGE_SIZE {
      props.nextStepUp := rowCount - numberVisible;
    }
  }

  /** The visible count after a run of "see more" clicks, each adding its clamped step. */
  function VisibleAfter(numberVisible: int, steps: seq<int>, rowCount: int): (visible: int)
    decreases |steps|
  {
    if steps == [] then numberVisible
    else
      var next := numberVisible + ClampedStep(numberVisible, steps[0], rowCount);
      VisibleAfter(next, steps[1..], rowCount)
  }

  /**
   * From a page of at most MAX_PAGE_SIZE rows (or of all rows), any run of
   * clicks keeps the page at most MAX_PAGE_SIZE rows or at all rows.
   */
  lemma {:induction false} PageSizeStaysBounded(numberVisible: int, steps: seq<int>, rowCount: int)
    requires numberVisible <= MAX_PAGE_SIZE || numberVisible == rowCount
    ensures var v := VisibleAfter(numberVisible, steps, rowCount);
            v <= MAX_PAGE_SIZE || v == rowCount
    decreases |steps|
  {
    if steps != [] {
      var next := numberVisible + ClampedStep(numberVisible, steps[0], rowCount);
      PageSizeStaysBounded(next, steps[1..], rowCount);
    }
  }

  /** The initial page fits the grid, so every page the table shows does as well, or shows all rows. */
  lemma InitialPageStaysBounded(steps: seq<int>, rowCount: int)
    ensures var v := VisibleAfter(INITIAL_PAGE_SIZE, steps, rowCount);
            v <= MAX_PAGE_SIZE || v == rowCount
  {
    PageSizeStaysBounded(INITIAL_PAGE_SIZE, steps, rowCount);
  }

  // ---------------------------------------------------------------------------
  // Row links.

  /** A value of a query parameter. */
  datatype ParamValue = Strings(items: seq<string>) | Number(n: int) | Text(s: string)

  /** An object literal: its entries in insertion order. */
  type SearchObject = seq<(string, ParamValue)>

  function Keys(o: SearchObject): (keys: set<string>)
  {
    if o == [] then {} else {o[0].0} + Keys(o[1..])
  }

  /** An object has each key at most once. */
  predicate DistinctKeys(o: SearchObject)
  {
    o == [] || (o[0].0 !in Keys(o[1..]) && DistinctKeys(o[1..]))
  }

  /** `o[key]`, None when the key is absent. */
  function Lookup(o: SearchObject, key: string): (r: Option<ParamValue>)
    ensures r.None? <==> key !in Keys(o)
  {
    if o == [] then None
    else if o[0].0 == key then Some(o[0].1)
    else Lookup(o[1..], key)
  }

  /** `o[key] = v`: an existing key keeps its place and takes the new value; a new key goes last. */
  function Put(o: SearchObject, key: string, v: ParamValue): (r: SearchObject)
    ensures Keys(r) == Keys(o) + {key}
    ensures Lookup(r, key) == Some(v)
    ensures forall k :: k != key ==> Lookup(r, k) == Lookup(o, k)
    ensures key !in Keys(o) ==> r == o + [(key, v)]
    ensures key in Keys(o) ==> |r| == |o| && forall i :: 0 <= i < |o| ==> r[i].0 == o[i].0
    ensures DistinctKeys(o) ==> DistinctKeys(r)
  {
    if o == [] then [(key, v)]
    else if o[0].0 == key then [(key, v)] + o[1..]
    else [o[0]] + Put(o[1..], key, v)
  }

  /** `{...o, ...p}`: the entries of `p` are put into `o` one by one. */
  function Spread(o: SearchObject, p: SearchObject): (r: SearchObject)
    ensures Keys(r) == Keys(o) + Keys(p)
    ensures DistinctKeys(o) ==> DistinctKeys(r)
    decreases |p|
  {
    if p == [] then o else Spread(Put(o, p[0].0, p[0].1), p[1..])
  }

  /** The entries of `o`, each taking the value `p` gives its key, if any. */
  function Overwrite(o: SearchObject, p: SearchObject): (r: SearchObject)
    ensures Keys(r) == Keys(o)
  {
    if o == [] then []
    else
      var v := if o[0].0 in Keys(p) then Lookup(p, o[0].0).value else o[0].1;
      [(o[0].0, v)] + Overwrite(o[1..], p)
  }

  /** Keeps the entries whose key is not in `keys`. */
  function KeyNotIn(keys: set<string>): (keep: ((string, ParamValue)) -> bool)
  {
    (e: (string, ParamValue)) => e.0 !in keys
  }

  /** In a spread, the later object wins on every key it has. */
  lemma {:induction false} SpreadLookup(o: SearchObject, p: SearchObject, k: string)
    requires DistinctKeys(p)
    ensures Lookup(Spread(o, p), k) == if k in Keys(p) then Lookup(p, k) else Lookup(o, k)
    decreases |p|
  {
    if p != [] {
      SpreadLookup(Put(o, p[0].0, p[0].1), p[1..], k);
    }
  }

  /** Overwriting with `p` is unaffected by an entry of `p` whose key `o` does not have. */
  lemma {:induction false} OverwriteIgnoresOtherKey(o: SearchObject, e: (string, ParamValue), rest: SearchObject)
    requires e.0 !in Keys(o)
    ensures Overwrite(o, [e] + rest) == Overwrite(o, rest)
    decreases |o|
  {
    if o != [] {
      assert ([e] + rest)[1..] == rest;
      OverwriteIgnoresOtherKey(o[1..], e, rest);
    }
  }

  /** Overwriting an object with one more entry at the end. */
  lemma {:induction false} OverwriteAppend(o: SearchObject, e: (string, ParamValue), p: SearchObject)
    requires e.0 !in Keys(p)
    ensures Overwrite(o + [e], p) == Overwrite(o, p) + [e]
    decreases |o|
  {
    if o == [] {
      assert o + [e] == [e];
    } else {
      assert (o + [e])[1..] == o[1..] + [e];
      OverwriteAppend(o[1..], e, p);
    }
  }

  /** Putting a key `o` already has, then overwriting with the rest, is overwriting with the whole. */
  lemma {:induction false} OverwritePut(o: SearchObject, e: (string, ParamValue), rest: SearchObject)
    requires e.0 in Keys(o) && DistinctKeys(o) && e.0 !in Keys(rest)
    ensures Overwrite(Put(o, e.0, e.1), rest) == Overwrite(o, [e] + rest)
    decreases |o|
  {
    var p := [e] + rest;
    assert p[1..] == rest;
    if o[0].0 == e.0 {
      OverwriteIgnoresOtherKey(o[1..], e, rest);
    } else {
      OverwritePut(o[1..], e, rest);
    }
  }

  /**
   * `{...o, ...p}` in full: the entries of `o` in their order, with the
   * values `p` gives them, then the entries of `p` whose key `o` lacks, in
   * their order.
   */
  lemma {:induction false} SpreadShape(o: SearchObject, p: SearchObject)
    requires DistinctKeys(o) && DistinctKeys(p)
    ensures Spread(o, p) == Overwrite(o, p) + Filter(p, KeyNotIn(Keys(o)))
    decreases |p|
  {
    if p == [] {
      OverwriteNothing(o);
    } else {
      var e, rest := p[0], p[1..];
      assert p == [e] + rest;
      SpreadShape(Put(o, e.0, e.1), rest);
      if e.0 in Keys(o) {
        SpreadKnownKey(o, e, rest);
      } else {
        SpreadNewKey(o, e, rest);
      }
    }
  }

  /** One step of a spread whose key `o` already has: the entry takes the new value in place. */
  lemma {:induction false} SpreadKnownKey(o: SearchObject, e: (string, ParamValue), rest: SearchObject)
    requires DistinctKeys(o) && DistinctKeys([e] + rest) && e.0 in Keys(o)
    ensures var o' := Put(o, e.0, e.1);
            Overwrite(o', rest) + Filter(rest, KeyNotIn(Keys(o')))
            == Overwrite(o, [e] + rest) + Filter([e] + rest, KeyNotIn(Keys(o)))
  {
    assert ([e] + rest)[1..] == rest;
    OverwritePut(o, e, rest);
    assert Filter([e] + rest, KeyNotIn(Keys(o))) == Filter(rest, KeyNotIn(Keys(o)));
  }

  /** One step of a spread with a key `o` lacks: the entry goes last. */
  lemma {:induction false} SpreadNewKey(o: SearchObject, e: (string, ParamValue), rest: SearchObject)
    requires DistinctKeys(o) && DistinctKeys([e] + rest) && e.0 !in Keys(o)
    ensures var o' := Put(o, e.0, e.1);
            Overwrite(o', rest) + Filter(rest, KeyNotIn(Keys(o')))
            == Overwrite(o, [e] + rest) + Filter([e] + rest, KeyNotIn(Keys(o)))
  {
    var kept := Filter(rest, KeyNotIn(Keys(o)));
    OverwriteNewKey(o, e, rest);
    FilterNewKey(o, e, rest);
    assert Filter([e] + rest, KeyNotIn(Keys(o))) == [e] + kept by {
      assert ([e] + rest)[1..] == rest;
    }
    ConcatAssoc(Overwrite(o, [e] + rest), [e], kept);
  }

  /**
   * Associativity of concatenation, stated once so that the proof of
   * SpreadNewKey regroups its sequences in one step instead of searching for
   * the regrouping itself.
   */
  lemma ConcatAssoc<T>(a: seq<T>, b: seq<T>, c: seq<T>)
    ensures (a + b) + c == a + (b + c)
  {
  }

  /** Putting a key `o` lacks appends it, and the rest of the spread does not touch it. */
  lemma {:induction false} OverwriteNewKey(o: SearchObject, e: (string, ParamValue), rest: SearchObject)
    requires DistinctKeys([e] + rest) && e.0 !in Keys(o)
    ensures Overwrite(Put(o, e.0, e.1), rest) == Overwrite(o, [e] + rest) + [e]
  {
    assert Put(o, e.0, e.1) == o + [e];
    assert e.0 !in Keys(rest) by { assert ([e] + rest)[1..] == rest; }
    OverwriteAppend(o, e, rest);
    OverwriteIgnoresOtherKey(o, e, rest);
  }

  /** The rest of a spread has no entry with the key just put, so the same entries of it are new. */
  lemma {:induction false} FilterNewKey(o: SearchObject, e: (string, ParamValue), rest: SearchObject)
    requires DistinctKeys([e] + rest)
    ensures Filter(rest, KeyNotIn(Keys(Put(o, e.0, e.1)))) == Filter(rest, KeyNotIn(Keys(o)))
  {
    var o' := Put(o, e.0, e.1);
    assert e.0 !in Keys(rest) by { assert ([e] + rest)[1..] == rest; }
    forall x | x in rest ensures KeyNotIn(Keys(o'))(x) == KeyNotIn(Keys(o))(x) {
      KeysMember(rest, x);
    }
    FilterAgrees(rest, KeyNotIn(Keys(o')), KeyNotIn(Keys(o)));
  }


  /** Overwriting with an empty object changes nothing. */
  lemma {:induction false} OverwriteNothing(o: SearchObject)
    ensures Overwrite(o, []) == o
    decreases |o|
  {
    if o != [] {
      OverwriteNothing(o[1..]);
    }
  }

  /** The key of every entry is a key of the object. */
  lemma {:induction false} KeysMember(o: SearchObject, x: (string, ParamValue))
    requires x in o
    ensures x.0 in Keys(o)
    decreases |o|
  {
    if o[0] != x {
      assert x in o[1..];
      KeysMember(o[1..], x);
    }
  }

  /**
   * The query parameters of a row's link: for a per-filter row, the selected
   * option mapped to the row's filter value; then the pipeline's parameters.
   */
  function RowSearch(row: Row, option: string, pipeline: SearchObject): (o: SearchObject)
    requires DistinctKeys(pipeline)
    ensures DistinctKeys(o)
    ensures Keys(o) == Keys(pipeline) + (if row.id != OVERALL_ROW_ID then {option} else {})
  {
    var own := if row.id != OVERALL_ROW_ID then [(option, Strings([row.metrics.filterValue]))] else [];
    assert Keys(own) == if row.id != OVERALL_ROW_ID then {option} else {};
    assert DistinctKeys(own) by { if own != [] { assert own[1..] == []; } }
    Spread(own, pipeline)
  }

  /**
   * Each parameter of a row's link: a pipeline parameter wins; otherwise a
   * per-filter row has its filter value under the selected option.
   */
  lemma RowSearchLookup(row: Row, option: string, pipeline: SearchObject, k: string)
    requires DistinctKeys(pipeline)
    ensures Lookup(RowSearch(row, option, pipeline), k)
            == if k in Keys(pipeline) then Lookup(pipeline, k)
               else if row.id != OVERALL_ROW_ID && k == option then Some(Strings([row.metrics.filterValue]))
               else None
  {
    var own := if row.id != OVERALL_ROW_ID then [(option, Strings([row.metrics.filterValue]))] else [];
    SpreadLookup(own, pipeline, k);
  }

  /** The overall row links with the pipeline's parameters alone, in their order. */
  lemma OverallRowSearchIsPipeline(row: Row, option: string, pipeline: SearchObject)
    requires DistinctKeys(pipeline) && row.id == OVERALL_ROW_ID
    ensures RowSearch(row, option, pipeline) == pipeline
  {
    SpreadShape([], pipeline);
    forall x | x in pipeline ensures KeyNotIn({})(x) { }
    FilterKeepsAll(pipeline, KeyNotIn({}));
  }

  /**
   * A per-filter row links with the selected option first, holding the
   * row's filter value unless the pipeline overrides it, then the other
   * pipeline parameters in their order.
   */
  lemma FilterRowSearchShape(row: Row, option: string, pipeline: SearchObject)
    requires DistinctKeys(pipeline) && row.id != OVERALL_ROW_ID
    ensures RowSearch(row, option, pipeline)
            == [(option, if option in Keys(pipeline) then Lookup(pipeline, option).value
                         else Strings([row.metrics.filterValue]))]
               + Filter(pipeline, KeyNotIn({option}))
  {
    var own := [(option, Strings([row.metrics.filterValue]))];
    assert Keys(own) == {option};
    SpreadShape(own, pipeline);
  }
}
