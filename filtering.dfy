/**
 * Narrowing a dataset split with a composite filter (azimuth/utils/filtering.py).
 *
 * The row tests of the lambdas in `filter_dataset_split` are predicates on
 * one row. The declarative meaning of the whole filter is `Admits`: for each
 * criterion, "if the criterion is active and (except for data actions) its
 * column exists, the row passes it".
 * `FilteredSplit` keeps the admitted rows; the method `FilterDatasetSplit`
 * applies the criteria one after another, as the Python code does, and is proved
 * to compute `FilteredSplit`.
 */
module Filtering {
  import opened Wrappers
  import opened Datasets

  // Column names of the prediction results (DatasetColumn).
  const MODEL_CONFIDENCES := "model_confidences"
  const POSTPROCESSED_CONFIDENCES := "postprocessed_confidences"
  const MODEL_PREDICTIONS := "model_predictions"
  const POSTPROCESSED_PREDICTION := "postprocessed_prediction"
  const MODEL_OUTCOME := "model_outcome"
  const POSTPROCESSED_OUTCOME := "postprocessed_outcome"

  /** A smart-tag family and the tags selected in it. */
  type FamilySelection = (string, seq<string>)

  /** The filters of a request; `smartTags` lists the dictionary's items in order. */
  datatype Filters = Filters(
    confidenceMin: real,
    confidenceMax: real,
    labels: seq<Value>,
    utterance: Option<string>,
    predictions: seq<Value>,
    dataActions: seq<string>,
    outcomes: seq<Value>,
    smartTags: seq<FamilySelection>)

  /**
   * The constant tag tables: every data-action column, the "no action" marker,
   * the tag columns of each smart-tag family, and the "no smart tag" marker.
   */
  datatype TagTables = TagTables(
    allDataActions: seq<string>,
    noAction: string,
    families: map<string, seq<string>>,
    noSmartTag: string)

  /** What the filter reads besides the filters: the configured column names and the tables. */
  datatype Context = Context(
    labelColumn: string,
    textColumn: string,
    tables: TagTables,
    withoutPostprocessing: bool)

  /** The filters that constrain nothing. */
  const NoFilters := Filters(0.0, 1.0, [], None, [], [], [], [])

  function ConfidenceColumn(withoutPostprocessing: bool): (column: string)
  {
    if withoutPostprocessing then MODEL_CONFIDENCES else POSTPROCESSED_CONFIDENCES
  }

  function PredictionColumn(withoutPostprocessing: bool): (column: string)
  {
    if withoutPostprocessing then MODEL_PREDICTIONS else POSTPROCESSED_PREDICTION
  }

  function OutcomeColumn(withoutPostprocessing: bool): (column: string)
  {
    if withoutPostprocessing then MODEL_OUTCOME else POSTPROCESSED_OUTCOME
  }

  // ---------------------------------------------------------------------------
  // Text helpers: `str.lower()` and `in` on strings.

  /** Lower-cases an ASCII letter; other characters are unchanged. */
  function LowerChar(c: char): (lowered: char)
  {
    if 'A' <= c <= 'Z' then (c as int + 32) as char else c
  }

  /** `str.lower()` on ASCII: each upper-case letter becomes the same letter in lower case. */
  function Lower(s: string): (r: string)
    ensures |r| == |s|
    ensures forall i :: 0 <= i < |r| ==> !('A' <= r[i] <= 'Z')
    ensures forall i :: 0 <= i < |s| && !('A' <= s[i] <= 'Z') ==> r[i] == s[i]
    ensures forall i :: 0 <= i < |s| && 'A' <= s[i] <= 'Z' ==>
              'a' <= r[i] <= 'z' && r[i] as int - 'a' as int == s[i] as int - 'A' as int
  {
    seq(|s|, i requires 0 <= i < |s| => LowerChar(s[i]))
  }

  /** Lower-casing twice is lower-casing once. */
  lemma LowerIdempotent(s: string)
    ensures Lower(Lower(s)) == Lower(s)
  {
    var once := Lower(s);
    assert forall i :: 0 <= i < |once| ==> Lower(once)[i] == once[i];
  }

  /** `part` occurs in `text` starting at position `i`. */
  ghost predicate OccursAt(part: string, text: string, i: int)
  {
    0 <= i && i + |part| <= |text| && text[i..i + |part|] == part
  }

  /** Python's `part in text` on strings, by scanning the start positions. */
  function Contains(text: string, part: string): (found: bool)
    ensures found ==> |part| <= |text|
    ensures part == [] ==> found
    decreases |text|
  {
    part <= text || (text != [] && Contains(text[1..], part))
  }

  /** An occurrence past position 0 is an occurrence in the tail, one position earlier. */
  lemma OccursShift(part: string, text: string, i: int)
    requires text != [] && i > 0
    ensures OccursAt(part, text, i) <==> OccursAt(part, text[1..], i - 1)
  {
    if i + |part| <= |text| {
      assert text[1..][i - 1..i - 1 + |part|] == text[i..i + |part|];
    }
  }

  /** The scan finds `part` exactly when it occurs somewhere in `text`. */
  lemma {:induction false} ContainsIff(text: string, part: string)
    ensures Contains(text, part) <==> exists i :: OccursAt(part, text, i)
  {
    if part <= text {
      assert text[0..|part|] == part;
      assert OccursAt(part, text, 0);
    } else {
      assert !OccursAt(part, text, 0) by {
        if |part| <= |text| {
          assert text[0..|part|] == text[..|part|];
        }
      }
      if text != [] {
        ContainsIff(text[1..], part);
        if i :| OccursAt(part, text[1..], i) {
          OccursShift(part, text, i + 1);
        }
        if i :| OccursAt(part, text, i) {
          OccursShift(part, text, i);
        }
      }
    }
  }

  // ---------------------------------------------------------------------------
  // Row predicates: the bodies of the lambdas in `filter_dataset_split`.

  /** A cell Python compares with a float: a bool, an int or a float. */
  predicate IsNumber(v: Value)
  {
    v.Bool? || v.Int? || v.Float?
  }

  /** The value Python compares: `True` is 1, `False` is 0, an int is itself. */
  function Numeric(v: Value): (n: real)
    requires IsNumber(v)
  {
    if v.Float? then v.x
    else if v.Int? then v.i as real
    else if v.b then 1.0 else 0.0
  }

  /** A confidence cell: a non-empty list of scores, one per class, the first of them a number. */
  predicate IsScores(v: Value)
  {
    v.List? && |v.items| > 0 && IsNumber(v.items[0])
  }

  /** `confidence_min <= x[column][0] <= confidence_max`. */
  function ConfidenceInWindow(row: Row, column: string, lo: real, hi: real): (inside: bool)
    ensures inside ==> lo <= hi
  {
    column in row && IsScores(row[column]) && lo <= Numeric(row[column].items[0]) <= hi
  }

  /** `x[column] in allowed`. */
  function ValueIn(row: Row, column: string, allowed: seq<Value>): (found: bool)
    ensures found ==> column in row && exists k :: 0 <= k < |allowed| && allowed[k] == row[column]
  {
    column in row && row[column] in allowed
  }

  /** `x[column][0] in allowed`. */
  /** A cell Python can index with `[0]`: a non-empty list or a non-empty string. */
  predicate Indexable(v: Value)
  {
    (v.List? && |v.items| > 0) || (v.Str? && |v.s| > 0)
  }

  /** `v[0]`: the first item of a list, the one-character string of a string. */
  function First(v: Value): (first: Value)
    requires Indexable(v)
  {
    if v.List? then v.items[0] else Str([v.s[0]])
  }

  function FirstIn(row: Row, column: string, allowed: seq<Value>): (found: bool)
    ensures found ==> column in row && Indexable(row[column])
                      && exists k :: 0 <= k < |allowed| && allowed[k] == First(row[column])
  {
    column in row && Indexable(row[column]) && First(row[column]) in allowed
  }

  /** `query.lower() in x[column].lower()`. */
  function TextContains(row: Row, column: string, query: string): (found: bool)
    ensures found ==> column in row && row[column].Str? && |query| <= |row[column].s|
    ensures column in row && row[column].Str? && query == "" ==> found
  {
    column in row && row[column].Str? && Contains(Lower(row[column].s), Lower(query))
  }

  /** `x[column]` is truthy. */
  predicate Flag(row: Row, column: string)
  {
    column in row && Truthy(row[column])
  }

  /** No column of `universe` is set on the row. */
  predicate NoneSet(row: Row, universe: seq<string>)
  {
    forall j :: 0 <= j < |universe| ==> !Flag(row, universe[j])
  }

  /** One selected entry: the "none" marker matches when no flag of `universe` is set. */
  predicate Matches(row: Row, universe: seq<string>, noneMarker: string, choice: string)
  {
    if choice == noneMarker then NoneSet(row, universe) else Flag(row, choice)
  }

  /** At least one selected entry matches (the OR of the data-action and smart-tag filters). */
  function AnySelected(row: Row, universe: seq<string>, noneMarker: string, selected: seq<string>): (found: bool)
    ensures found ==> |selected| > 0
    ensures noneMarker !in selected && found ==> exists k :: 0 <= k < |selected| && Flag(row, selected[k])
  {
    exists k :: 0 <= k < |selected| && Matches(row, universe, noneMarker, selected[k])
  }

  /** The "none" marker alone matches exactly the rows with no flag of the family set. */
  lemma NoneMarkerMatchesUnflagged(row: Row, universe: seq<string>, noneMarker: string)
    ensures AnySelected(row, universe, noneMarker, [noneMarker])
            <==> forall c :: c in universe ==> !(c in row && Truthy(row[c]))
  {
    assert Matches(row, universe, noneMarker, [noneMarker][0]) == NoneSet(row, universe);
  }

  /** Every column of `names` is a column of the split. */
  predicate AllIn(names: seq<string>, columns: set<string>)
  {
    forall j :: 0 <= j < |names| ==> names[j] in columns
  }

  // ---------------------------------------------------------------------------
  // The criteria. The six steps before the smart-tag loop are numbered in the
  // order of `filter_dataset_split`: confidence, label, utterance, prediction,
  // data action, outcome. Each has a guard (the filter is active and, except
  // for data actions, its column exists) and a row test.

  const FIXED_CRITERIA := 6

  predicate ConfidenceActive(f: Filters)
  {
    f.confidenceMin > 0.0 || f.confidenceMax < 1.0
  }

  /** Whether step `k` filters at all. The data-action step has no column check. */
  predicate Applies(columns: set<string>, f: Filters, ctx: Context, k: nat)
  {
    match k
    case 0 => ConfidenceActive(f) && ConfidenceColumn(ctx.withoutPostprocessing) in columns
    case 1 => |f.labels| > 0 && ctx.labelColumn in columns
    case 2 => f.utterance.Some? && ctx.textColumn in columns
    case 3 => |f.predictions| > 0 && PredictionColumn(ctx.withoutPostprocessing) in columns
    case 4 => |f.dataActions| > 0
    case _ => |f.outcomes| > 0 && OutcomeColumn(ctx.withoutPostprocessing) in columns
  }

  /** Without postprocessing the first entry of `model_predictions` is tested. */
  predicate PredictionMatches(row: Row, withoutPostprocessing: bool, allowed: seq<Value>)
  {
    if withoutPostprocessing then FirstIn(row, MODEL_PREDICTIONS, allowed)
    else ValueIn(row, POSTPROCESSED_PREDICTION, allowed)
  }

  /** The row test of step `k`: OR within the selected labels, predictions, actions and outcomes. */
  predicate RowTest(f: Filters, ctx: Context, row: Row, k: nat)
  {
    match k
    case 0 => ConfidenceInWindow(row, ConfidenceColumn(ctx.withoutPostprocessing), f.confidenceMin, f.confidenceMax)
    case 1 => ValueIn(row, ctx.labelColumn, f.labels)
    case 2 => f.utterance.Some? ==> TextContains(row, ctx.textColumn, f.utterance.value)
    case 3 => PredictionMatches(row, ctx.withoutPostprocessing, f.predictions)
    case 4 => AnySelected(row, ctx.tables.allDataActions, ctx.tables.noAction, f.dataActions)
    case _ => ValueIn(row, OutcomeColumn(ctx.withoutPostprocessing), f.outcomes)
  }

  /** The row satisfies step `k`: the step does not apply, or the row passes its test. */
  predicate Criterion(columns: set<string>, f: Filters, ctx: Context, row: Row, k: nat)
  {
    Applies(columns, f, ctx, k) ==> RowTest(f, ctx, row, k)
  }

  /** A smart-tag family constrains only when some tag is selected and all its tag columns exist. */
  predicate FamilyActive(columns: set<string>, sel: FamilySelection, t: TagTables)
  {
    |sel.1| > 0 && sel.0 in t.families && AllIn(t.families[sel.0], columns)
  }

  predicate FamilyOk(columns: set<string>, sel: FamilySelection, t: TagTables, row: Row)
  {
    FamilyActive(columns, sel, t) ==> AnySelected(row, t.families[sel.0], t.noSmartTag, sel.1)
  }

  /** AND across families. */
  predicate TagsOk(columns: set<string>, sels: seq<FamilySelection>, t: TagTables, row: Row)
  {
    forall i :: 0 <= i < |sels| ==> FamilyOk(columns, sels[i], t, row)
  }

  /** The row passes the first `n` criteria of the fixed chain. */
  predicate FirstCriteriaOk(columns: set<string>, f: Filters, ctx: Context, row: Row, n: nat)
  {
    forall k: nat :: k < n ==> Criterion(columns, f, ctx, row, k)
  }

  /** The row passes the whole fixed chain. */
  predicate FixedOk(columns: set<string>, f: Filters, ctx: Context, row: Row)
  {
    FirstCriteriaOk(columns, f, ctx, row, FIXED_CRITERIA)
  }

  /** A row of a split with these columns passes every criterion of the filter. */
  predicate Admits(columns: set<string>, f: Filters, ctx: Context, row: Row)
  {
    FixedOk(columns, f, ctx, row) && TagsOk(columns, f.smartTags, ctx.tables, row)
  }

  /** The split narrowed by the filters: the admitted rows, in order, under the same columns. */
  function FilteredSplit(ds: Dataset, f: Filters, ctx: Context): (out: Dataset)
    ensures out.columns == ds.columns
    ensures |out.rows| <= |ds.rows|
    ensures forall row :: row in out.rows ==> row in ds.rows && Admits(ds.columns, f, ctx, row)
  {
    Dataset(ds.columns, Filter(ds.rows, row => Admits(ds.columns, f, ctx, row)))
  }

  // ---------------------------------------------------------------------------
  // A sufficient condition for `filter_dataset_split` to run without an exception.

  /**
   * The cells an applied step reads have the type its lambda needs: a
   * non-empty list whose first item is a number for the confidence, a string
   * for the text, a non-empty list or string for `model_predictions`.
   */
  predicate WellTypedRow(columns: set<string>, f: Filters, ctx: Context, row: Row)
  {
    var confidenceColumn := ConfidenceColumn(ctx.withoutPostprocessing);
    && (Applies(columns, f, ctx, 0) && confidenceColumn in row ==> IsScores(row[confidenceColumn]))
    && (Applies(columns, f, ctx, 2) && ctx.textColumn in row ==> row[ctx.textColumn].Str?)
    && (Applies(columns, f, ctx, 3) && ctx.withoutPostprocessing && MODEL_PREDICTIONS in row ==>
          Indexable(row[MODEL_PREDICTIONS]))
  }

  /** Selected entries other than the "none" marker name existing columns. */
  predicate SelectedColumnsExist(selected: seq<string>, noneMarker: string, columns: set<string>)
  {
    forall k :: 0 <= k < |selected| && selected[k] != noneMarker ==> selected[k] in columns
  }

  /**
   * The split is a table whose cells read by applied steps are well-typed;
   * the selected data-action columns exist; every family with a selection is
   * known, and the tags selected in an applied family are columns. This is
   * sufficient, not necessary: the Python code also runs when a malformed cell sits
   * on a row an earlier step removed, or when `any` stops before a missing
   * data-action column.
   */
  predicate Fits(ds: Dataset, f: Filters, ctx: Context)
  {
    var t := ctx.tables;
    && Rectangular(ds)
    && (forall i :: 0 <= i < |ds.rows| ==> WellTypedRow(ds.columns, f, ctx, ds.rows[i]))
    && (|f.dataActions| > 0 ==>
          && SelectedColumnsExist(f.dataActions, t.noAction, ds.columns)
          && (t.noAction in f.dataActions ==> AllIn(t.allDataActions, ds.columns)))
    && (forall i :: 0 <= i < |f.smartTags| && |f.smartTags[i].1| > 0 ==> f.smartTags[i].0 in t.families)
    && (forall i :: 0 <= i < |f.smartTags| && FamilyActive(ds.columns, f.smartTags[i], t) ==>
          SelectedColumnsExist(f.smartTags[i].1, t.noSmartTag, ds.columns))
  }

  // ---------------------------------------------------------------------------
  // The operation, step by step.

  /** The test of the first `n` steps of the fixed chain, as one predicate. */
  function Passes(columns: set<string>, f: Filters, ctx: Context, n: nat): (test: Row -> bool)
  {
    row => FirstCriteriaOk(columns, f, ctx, row, n)
  }

  /** The test of the fixed chain and the first `n` smart-tag families. */
  function PassesFamilies(columns: set<string>, f: Filters, ctx: Context, n: nat): (test: Row -> bool)
    requires n <= |f.smartTags|
  {
    row => FixedOk(columns, f, ctx, row) && TagsOk(columns, f.smartTags[..n], ctx.tables, row)
  }

  /** One step of the chain: `rows` was `Filter(s, before)`; the step filters by `q` when `applied`. */
  lemma Step(s: seq<Row>, rows: seq<Row>, before: Row -> bool, after: Row -> bool, applied: bool, q: Row -> bool)
    requires rows == Filter(s, before)
    requires forall i :: 0 <= i < |s| ==> after(s[i]) == (before(s[i]) && (applied ==> q(s[i])))
    ensures (if applied then Filter(rows, q) else rows) == Filter(s, after)
  {
    if applied {
      FilterTwice(s, before, q, after);
    } else {
      FilterAgrees(s, before, after);
    }
  }

  /** Step `k` of the fixed chain: when it applies, filtering by `q` is filtering by its row test. */
  lemma FixedStep(s: seq<Row>, rows: seq<Row>, columns: set<string>, f: Filters, ctx: Context,
                  k: nat, next: nat, applied: bool, q: Row -> bool)
    requires k < FIXED_CRITERIA && next == k + 1
    requires rows == Filter(s, Passes(columns, f, ctx, k))
    requires applied == Applies(columns, f, ctx, k)
    requires applied ==> forall row :: q(row) == RowTest(f, ctx, row, k)
    ensures (if applied then Filter(rows, q) else rows) == Filter(s, Passes(columns, f, ctx, next))
  {
    forall row ensures FirstCriteriaOk(columns, f, ctx, row, next)
                       == (FirstCriteriaOk(columns, f, ctx, row, k) && Criterion(columns, f, ctx, row, k))
    {
      if FirstCriteriaOk(columns, f, ctx, row, k) && Criterion(columns, f, ctx, row, k) {
        forall j: nat | j < next ensures Criterion(columns, f, ctx, row, j) {
          if j < k {
            assert Criterion(columns, f, ctx, row, j);
          }
        }
      }
    }
    Step(s, rows, Passes(columns, f, ctx, k), Passes(columns, f, ctx, next), applied, q);
  }

  /** `filter_dataset_split`: each active criterion whose column exists narrows the split in turn. */
  method FilterDatasetSplit(ds: Dataset, f: Filters, ctx: Context) returns (out: Dataset)
    requires Fits(ds, f, ctx)
    ensures out == FilteredSplit(ds, f, ctx)
  {
    var rows := ApplyFixedCriteria(ds, f, ctx);
    FixedChainDone(ds.rows, ds.columns, f, ctx, FIXED_CRITERIA);
    rows := ApplySmartTags(ds, f, ctx, rows);
    out := Dataset(ds.columns, rows);
  }

  /** The confidence, label, utterance, prediction, data-action and outcome steps. */
  method ApplyFixedCriteria(ds: Dataset, f: Filters, ctx: Context) returns (rows: seq<Row>)
    ensures rows == Filter(ds.rows, Passes(ds.columns, f, ctx, FIXED_CRITERIA))
  {
    var columns := ds.columns;
    var t := ctx.tables;
    rows := ds.rows;
    FilterKeepsAll(ds.rows, Passes(columns, f, ctx, 0));

    var confidenceColumn := ConfidenceColumn(ctx.withoutPostprocessing);
    var applied := ConfidenceActive(f) && confidenceColumn in columns;
    var q: Row -> bool := row => ConfidenceInWindow(row, confidenceColumn, f.confidenceMin, f.confidenceMax);
    FixedStep(ds.rows, rows, columns, f, ctx, 0, 1, applied, q);
    if applied {
      rows := Filter(rows, q);
    }

    applied := |f.labels| > 0 && ctx.labelColumn in columns;
    q := row => ValueIn(row, ctx.labelColumn, f.labels);
    FixedStep(ds.rows, rows, columns, f, ctx, 1, 2, applied, q);
    if applied {
      rows := Filter(rows, q);
    }

    applied := f.utterance.Some? && ctx.textColumn in columns;
    if applied {
      var query := f.utterance.value;
      q := row => TextContains(row, ctx.textColumn, query);
    }
    FixedStep(ds.rows, rows, columns, f, ctx, 2, 3, applied, q);
    if applied {
      rows := Filter(rows, q);
    }

    applied := |f.predictions| > 0 && PredictionColumn(ctx.withoutPostprocessing) in columns;
    if ctx.withoutPostprocessing {
      q := row => FirstIn(row, MODEL_PREDICTIONS, f.predictions);
    } else {
      q := row => ValueIn(row, POSTPROCESSED_PREDICTION, f.predictions);
    }
    FixedStep(ds.rows, rows, columns, f, ctx, 3, 4, applied, q);
    if applied {
      rows := Filter(rows, q);
    }

    // OR between the selected data actions.
    applied := |f.dataActions| > 0;
    q := row => AnySelected(row, t.allDataActions, t.noAction, f.dataActions);
    FixedStep(ds.rows, rows, columns, f, ctx, 4, 5, applied, q);
    if applied {
      rows := Filter(rows, q);
    }

    // OR between the selected outcomes.
    var outcomeColumn := OutcomeColumn(ctx.withoutPostprocessing);
    applied := |f.outcomes| > 0 && outcomeColumn in columns;
    q := row => ValueIn(row, outcomeColumn, f.outcomes);
    FixedStep(ds.rows, rows, columns, f, ctx, 5, 6, applied, q);
    if applied {
      rows := Filter(rows, q);
    }
  }

  /** The smart-tag loop: AND between families, OR inside a family. */
  method ApplySmartTags(ds: Dataset, f: Filters, ctx: Context, fixed: seq<Row>) returns (rows: seq<Row>)
    requires fixed == Filter(ds.rows, PassesFamilies(ds.columns, f, ctx, 0))
    ensures rows == FilteredSplit(ds, f, ctx).rows
  {
    var columns := ds.columns;
    var t := ctx.tables;
    rows := fixed;
    for i := 0 to |f.smartTags|
      invariant rows == Filter(ds.rows, PassesFamilies(columns, f, ctx, i))
    {
      var (key, tagsInFamily) := f.smartTags[i];
      var applied := |tagsInFamily| > 0 && key in t.families && AllIn(t.families[key], columns);
      var q: Row -> bool := row => true;
      if applied {
        var family := t.families[key];
        q := row => AnySelected(row, family, t.noSmartTag, tagsInFamily);
      }
      TagStep(ds.rows, rows, columns, f, ctx, i, applied, q);
      if applied {
        rows := Filter(rows, q);
      }
    }
    FamiliesDone(ds, f, ctx);
  }

  /** After the six fixed steps, no smart-tag family has been applied yet. */
  lemma FixedChainDone(s: seq<Row>, columns: set<string>, f: Filters, ctx: Context, n: nat)
    requires n == FIXED_CRITERIA
    ensures Filter(s, Passes(columns, f, ctx, n)) == Filter(s, PassesFamilies(columns, f, ctx, 0))
  {
    FilterAgrees(s, Passes(columns, f, ctx, n), PassesFamilies(columns, f, ctx, 0));
  }

  /** After every smart-tag family, the rows kept are the admitted rows. */
  lemma FamiliesDone(ds: Dataset, f: Filters, ctx: Context)
    ensures Filter(ds.rows, PassesFamilies(ds.columns, f, ctx, |f.smartTags|)) == FilteredSplit(ds, f, ctx).rows
  {
    assert f.smartTags[..|f.smartTags|] == f.smartTags;
    FilterAgrees(ds.rows, PassesFamilies(ds.columns, f, ctx, |f.smartTags|), row => Admits(ds.columns, f, ctx, row));
  }

  /** Step `i` of the smart-tag loop: filtering by `q` when `applied` is family `i`'s constraint. */
  lemma TagStep(s: seq<Row>, rows: seq<Row>, columns: set<string>, f: Filters, ctx: Context,
                i: nat, applied: bool, q: Row -> bool)
    requires i < |f.smartTags|
    requires rows == Filter(s, PassesFamilies(columns, f, ctx, i))
    requires forall row :: FamilyOk(columns, f.smartTags[i], ctx.tables, row) == (applied ==> q(row))
    ensures (if applied then Filter(rows, q) else rows)
            == Filter(s, PassesFamilies(columns, f, ctx, i + 1))
  {
    forall j | 0 <= j < |s|
      ensures TagsOk(columns, f.smartTags[..i + 1], ctx.tables, s[j])
              == (TagsOk(columns, f.smartTags[..i], ctx.tables, s[j]) && FamilyOk(columns, f.smartTags[i], ctx.tables, s[j]))
    {
      TagsOkExtend(columns, f.smartTags, i, ctx.tables, s[j]);
    }
    Step(s, rows, PassesFamilies(columns, f, ctx, i),
         PassesFamilies(columns, f, ctx, i + 1), applied, q);
  }

  /** Extending the families considered by one adds that family's constraint. */
  lemma TagsOkExtend(columns: set<string>, sels: seq<FamilySelection>, i: int, t: TagTables, row: Row)
    requires 0 <= i < |sels|
    ensures TagsOk(columns, sels[..i + 1], t, row)
            == (TagsOk(columns, sels[..i], t, row) && FamilyOk(columns, sels[i], t, row))
  {
    assert sels[..i + 1] == sels[..i] + [sels[i]];
  }

  // ---------------------------------------------------------------------------
  // Properties of the filter.

  /** A row is kept exactly when it is a row of the split and passes every applicable criterion. */
  lemma KeptIff(ds: Dataset, f: Filters, ctx: Context, row: Row)
    ensures row in FilteredSplit(ds, f, ctx).rows <==> row in ds.rows && Admits(ds.columns, f, ctx, row)
  {
    FilterMember(ds.rows, row => Admits(ds.columns, f, ctx, row), row);
  }

  /**
   * The same, position by position: the output rows are the input rows at
   * the positions `idx`, in increasing order, and input row `i` is kept
   * exactly when it is admitted, so an admitted row that occurs twice is kept twice.
   */
  lemma KeptPositions(ds: Dataset, f: Filters, ctx: Context) returns (idx: seq<int>)
    ensures SubsequenceVia(FilteredSplit(ds, f, ctx).rows, ds.rows, idx)
    ensures forall i :: 0 <= i < |ds.rows| ==> (Admits(ds.columns, f, ctx, ds.rows[i]) <==> i in idx)
  {
    idx := FilterPositions(ds.rows, row => Admits(ds.columns, f, ctx, row));
  }

  /** Rows are only removed, never added or reordered, and the columns stay. */
  lemma OutputIsSubsequence(ds: Dataset, f: Filters, ctx: Context)
    ensures FilteredSplit(ds, f, ctx).columns == ds.columns
    ensures IsSubsequence(FilteredSplit(ds, f, ctx).rows, ds.rows)
  {
    FilterIsSubsequence(ds.rows, row => Admits(ds.columns, f, ctx, row));
  }

  /** Filters that select nothing. */
  predicate Neutral(f: Filters)
  {
    && f.confidenceMin <= 0.0 && f.confidenceMax >= 1.0
    && f.labels == [] && f.utterance.None? && f.predictions == []
    && f.dataActions == [] && f.outcomes == []
    && forall i :: 0 <= i < |f.smartTags| ==> f.smartTags[i].1 == []
  }

  /** Under neutral filters no step applies and every row passes. */
  lemma NeutralAdmitsAll(columns: set<string>, f: Filters, ctx: Context, row: Row)
    requires Neutral(f)
    ensures Admits(columns, f, ctx, row)
  {
    forall k: nat | k < FIXED_CRITERIA ensures Criterion(columns, f, ctx, row, k) {
      assert !Applies(columns, f, ctx, k);
    }
  }

  /** Neutral filters give the split back unchanged. */
  lemma NeutralFiltersKeepAll(ds: Dataset, f: Filters, ctx: Context)
    requires Neutral(f)
    ensures FilteredSplit(ds, f, ctx) == ds
  {
    forall i | 0 <= i < |ds.rows| ensures Admits(ds.columns, f, ctx, ds.rows[i]) {
      NeutralAdmitsAll(ds.columns, f, ctx, ds.rows[i]);
    }
    FilterKeepsAll(ds.rows, row => Admits(ds.columns, f, ctx, row));
  }

  /** Every criterion is a test on one row joined by AND, so filtering the output again changes nothing. */
  lemma FilteringTwiceChangesNothing(ds: Dataset, f: Filters, ctx: Context)
    ensures FilteredSplit(FilteredSplit(ds, f, ctx), f, ctx) == FilteredSplit(ds, f, ctx)
  {
    FilterIdempotent(ds.rows, row => Admits(ds.columns, f, ctx, row));
  }

  /** The output of the filter meets the filter's own preconditions, so it can be filtered again. */
  lemma OutputFits(ds: Dataset, f: Filters, ctx: Context)
    requires Fits(ds, f, ctx)
    ensures Fits(FilteredSplit(ds, f, ctx), f, ctx)
  {
    var out := FilteredSplit(ds, f, ctx);
    FilterKeepsRectangular(ds, row => Admits(ds.columns, f, ctx, row));
    forall i | 0 <= i < |out.rows| ensures WellTypedRow(out.columns, f, ctx, out.rows[i]) {
      assert out.rows[i] in out.rows;
      var j :| 0 <= j < |ds.rows| && ds.rows[j] == out.rows[i];
    }
  }

  /**
   * A criterion whose column is absent is skipped: the result is the same as
   * with that criterion cleared. No error is raised for the missing column.
   */
  lemma AbsentColumnsSkipCriteria(ds: Dataset, f: Filters, ctx: Context)
    ensures ConfidenceColumn(ctx.withoutPostprocessing) !in ds.columns
            ==> FilteredSplit(ds, f, ctx) == FilteredSplit(ds, f.(confidenceMin := 0.0, confidenceMax := 1.0), ctx)
    ensures ctx.labelColumn !in ds.columns
            ==> FilteredSplit(ds, f, ctx) == FilteredSplit(ds, f.(labels := []), ctx)
    ensures ctx.textColumn !in ds.columns
            ==> FilteredSplit(ds, f, ctx) == FilteredSplit(ds, f.(utterance := None), ctx)
    ensures PredictionColumn(ctx.withoutPostprocessing) !in ds.columns
            ==> FilteredSplit(ds, f, ctx) == FilteredSplit(ds, f.(predictions := []), ctx)
    ensures OutcomeColumn(ctx.withoutPostprocessing) !in ds.columns
            ==> FilteredSplit(ds, f, ctx) == FilteredSplit(ds, f.(outcomes := []), ctx)
  {
    var cols := ds.columns;
    if ConfidenceColumn(ctx.withoutPostprocessing) !in cols {
      SameAdmission(ds, f, f.(confidenceMin := 0.0, confidenceMax := 1.0), ctx, 0);
    }
    if ctx.labelColumn !in cols {
      SameAdmission(ds, f, f.(labels := []), ctx, 1);
    }
    if ctx.textColumn !in cols {
      SameAdmission(ds, f, f.(utterance := None), ctx, 2);
    }
    if PredictionColumn(ctx.withoutPostprocessing) !in cols {
      SameAdmission(ds, f, f.(predictions := []), ctx, 3);
    }
    if OutcomeColumn(ctx.withoutPostprocessing) !in cols {
      SameAdmission(ds, f, f.(outcomes := []), ctx, 5);
    }
  }

  /** `g` is `f` with at most the selection of fixed step `k` changed. */
  predicate SameExcept(f: Filters, g: Filters, k: nat)
  {
    match k
    case 0 => f.(confidenceMin := g.confidenceMin, confidenceMax := g.confidenceMax) == g
    case 1 => f.(labels := g.labels) == g
    case 2 => f.(utterance := g.utterance) == g
    case 3 => f.(predictions := g.predictions) == g
    case 4 => f.(dataActions := g.dataActions) == g
    case _ => f.(outcomes := g.outcomes) == g
  }

  /** Two filters that differ only in step `k`, which applies under neither, filter alike. */
  lemma SameAdmission(ds: Dataset, f: Filters, g: Filters, ctx: Context, k: nat)
    requires k < FIXED_CRITERIA && SameExcept(f, g, k)
    requires !Applies(ds.columns, f, ctx, k) && !Applies(ds.columns, g, ctx, k)
    ensures FilteredSplit(ds, f, ctx) == FilteredSplit(ds, g, ctx)
  {
    forall i | 0 <= i < |ds.rows|
      ensures Admits(ds.columns, f, ctx, ds.rows[i]) == Admits(ds.columns, g, ctx, ds.rows[i])
    {
      var row := ds.rows[i];
      forall j: nat | j < FIXED_CRITERIA
        ensures Criterion(ds.columns, f, ctx, row, j) == Criterion(ds.columns, g, ctx, row, j)
      {
        if j != k {
          match j
          case 0 =>
          case 1 =>
          case 2 =>
          case 3 =>
          case 4 =>
          case _ =>
        }
      }
    }
    FilterAgrees(ds.rows, row => Admits(ds.columns, f, ctx, row), row => Admits(ds.columns, g, ctx, row));
  }

  /** A smart-tag family with a missing tag column imposes no constraint. */
  lemma AbsentTagColumnSkipsFamily(ds: Dataset, f: Filters, ctx: Context, i: nat)
    requires i < |f.smartTags|
    requires f.smartTags[i].0 in ctx.tables.families
    requires !AllIn(ctx.tables.families[f.smartTags[i].0], ds.columns)
    ensures FilteredSplit(ds, f, ctx)
            == FilteredSplit(ds, f.(smartTags := f.smartTags[i := (f.smartTags[i].0, [])]), ctx)
  {
    var g := f.(smartTags := f.smartTags[i := (f.smartTags[i].0, [])]);
    forall j | 0 <= j < |ds.rows|
      ensures Admits(ds.columns, f, ctx, ds.rows[j]) == Admits(ds.columns, g, ctx, ds.rows[j])
    {
      var row := ds.rows[j];
      assert FixedOk(ds.columns, f, ctx, row) == FixedOk(ds.columns, g, ctx, row) by {
        assert forall k: nat :: k < FIXED_CRITERIA ==>
          Criterion(ds.columns, f, ctx, row, k) == Criterion(ds.columns, g, ctx, row, k);
      }
      assert forall m :: 0 <= m < |f.smartTags| ==>
        FamilyOk(ds.columns, f.smartTags[m], ctx.tables, row) == FamilyOk(ds.columns, g.smartTags[m], ctx.tables, row);
    }
    FilterAgrees(ds.rows, row => Admits(ds.columns, f, ctx, row), row => Admits(ds.columns, g, ctx, row));
  }

  /** With every other criterion neutral, only step `k` decides whether a row is kept. */
  lemma OnlyStep(ds: Dataset, f: Filters, ctx: Context, k: nat, row: Row)
    requires k < FIXED_CRITERIA
    requires forall j: nat :: j < FIXED_CRITERIA && j != k ==> !Applies(ds.columns, f, ctx, j)
    requires f.smartTags == []
    ensures row in FilteredSplit(ds, f, ctx).rows <==> row in ds.rows && Criterion(ds.columns, f, ctx, row, k)
  {
    KeptIff(ds, f, ctx, row);
    assert FixedOk(ds.columns, f, ctx, row) <==> Criterion(ds.columns, f, ctx, row, k) by {
      assert forall j: nat :: j < FIXED_CRITERIA && j != k ==> Criterion(ds.columns, f, ctx, row, j);
    }
  }

  /** Confidence alone: a row is kept exactly when its first confidence lies in the closed window. */
  lemma ConfidenceWindowRule(ds: Dataset, ctx: Context, lo: real, hi: real, row: Row)
    requires lo > 0.0 || hi < 1.0
    requires ConfidenceColumn(ctx.withoutPostprocessing) in ds.columns
    ensures var column := ConfidenceColumn(ctx.withoutPostprocessing);
            row in FilteredSplit(ds, NoFilters.(confidenceMin := lo, confidenceMax := hi), ctx).rows
            <==> row in ds.rows && column in row && IsScores(row[column])
                 && lo <= Numeric(row[column].items[0]) <= hi
  {
    OnlyStep(ds, NoFilters.(confidenceMin := lo, confidenceMax := hi), ctx, 0, row);
  }

  /** Labels alone: a row is kept exactly when its label is one of the selected ones. */
  lemma LabelRule(ds: Dataset, ctx: Context, labels: seq<Value>, row: Row)
    requires |labels| > 0 && ctx.labelColumn in ds.columns
    ensures row in FilteredSplit(ds, NoFilters.(labels := labels), ctx).rows
            <==> row in ds.rows && ctx.labelColumn in row && row[ctx.labelColumn] in labels
  {
    OnlyStep(ds, NoFilters.(labels := labels), ctx, 1, row);
  }

  /** Utterance alone: a row is kept exactly when the lower-cased query occurs in its lower-cased text. */
  lemma UtteranceRule(ds: Dataset, ctx: Context, query: string, row: Row)
    requires ctx.textColumn in ds.columns
    ensures row in FilteredSplit(ds, NoFilters.(utterance := Some(query)), ctx).rows
            <==> row in ds.rows && ctx.textColumn in row && row[ctx.textColumn].Str?
                 && exists i :: OccursAt(Lower(query), Lower(row[ctx.textColumn].s), i)
  {
    OnlyStep(ds, NoFilters.(utterance := Some(query)), ctx, 2, row);
    if ctx.textColumn in row && row[ctx.textColumn].Str? {
      ContainsIff(Lower(row[ctx.textColumn].s), Lower(query));
    }
  }

  /** The utterance test ignores the case of the query: lower-casing it first changes nothing. */
  lemma QueryCaseIgnored(row: Row, column: string, query: string)
    ensures TextContains(row, column, query) == TextContains(row, column, Lower(query))
  {
    LowerIdempotent(query);
  }

  /** An empty utterance query keeps every row of a split the filter runs on. */
  lemma EmptyUtteranceKeepsAll(ds: Dataset, ctx: Context)
    requires Fits(ds, NoFilters.(utterance := Some("")), ctx) && ctx.textColumn in ds.columns
    ensures FilteredSplit(ds, NoFilters.(utterance := Some("")), ctx) == ds
  {
    var f := NoFilters.(utterance := Some(""));
    forall i | 0 <= i < |ds.rows| ensures Admits(ds.columns, f, ctx, ds.rows[i]) {
      var row := ds.rows[i];
      assert WellTypedRow(ds.columns, f, ctx, row);
      assert TextContains(row, ctx.textColumn, "");
      assert forall k: nat :: k < FIXED_CRITERIA ==> Criterion(ds.columns, f, ctx, row, k);
    }
    FilterKeepsAll(ds.rows, row => Admits(ds.columns, f, ctx, row));
  }

  /**
   * Predictions alone: a row is kept exactly when its prediction is selected;
   * without postprocessing the first entry of `model_predictions` is compared.
   */
  lemma PredictionRule(ds: Dataset, ctx: Context, predictions: seq<Value>, row: Row)
    requires |predictions| > 0 && PredictionColumn(ctx.withoutPostprocessing) in ds.columns
    ensures row in FilteredSplit(ds, NoFilters.(predictions := predictions), ctx).rows
            <==> row in ds.rows &&
                 if ctx.withoutPostprocessing then
                   MODEL_PREDICTIONS in row && Indexable(row[MODEL_PREDICTIONS])
                   && First(row[MODEL_PREDICTIONS]) in predictions
                 else
                   POSTPROCESSED_PREDICTION in row && row[POSTPROCESSED_PREDICTION] in predictions
  {
    OnlyStep(ds, NoFilters.(predictions := predictions), ctx, 3, row);
  }

  /**
   * Data actions alone: a row is kept exactly when one selected action matches;
   * the "no action" marker matches when no data-action flag is set.
   */
  lemma DataActionRule(ds: Dataset, ctx: Context, actions: seq<string>, row: Row)
    requires |actions| > 0
    ensures row in FilteredSplit(ds, NoFilters.(dataActions := actions), ctx).rows
            <==> row in ds.rows &&
                 exists k :: 0 <= k < |actions| &&
                   if actions[k] == ctx.tables.noAction
                   then forall a :: a in ctx.tables.allDataActions ==> !(a in row && Truthy(row[a]))
                   else actions[k] in row && Truthy(row[actions[k]])
  {
    OnlyStep(ds, NoFilters.(dataActions := actions), ctx, 4, row);
  }

  /** Outcomes alone: a row is kept exactly when its outcome is one of the selected ones. */
  lemma OutcomeRule(ds: Dataset, ctx: Context, outcomes: seq<Value>, row: Row)
    requires |outcomes| > 0 && OutcomeColumn(ctx.withoutPostprocessing) in ds.columns
    ensures var column := OutcomeColumn(ctx.withoutPostprocessing);
            row in FilteredSplit(ds, NoFilters.(outcomes := outcomes), ctx).rows
            <==> row in ds.rows && column in row && row[column] in outcomes
  {
    OnlyStep(ds, NoFilters.(outcomes := outcomes), ctx, 5, row);
  }

  /**
   * Smart tags alone: a row is kept exactly when, for every family with a
   * selection whose tag columns all exist, one selected tag matches; the
   * "no smart tag" marker matches when no tag of that family is set.
   */
  lemma SmartTagRule(ds: Dataset, ctx: Context, sels: seq<FamilySelection>, row: Row)
    ensures row in FilteredSplit(ds, NoFilters.(smartTags := sels), ctx).rows
            <==> row in ds.rows &&
                 forall i :: 0 <= i < |sels| && FamilyActive(ds.columns, sels[i], ctx.tables) ==>
                   var family := ctx.tables.families[sels[i].0];
                   exists k :: 0 <= k < |sels[i].1| &&
                     if sels[i].1[k] == ctx.tables.noSmartTag
                     then forall c :: c in family ==> !(c in row && Truthy(row[c]))
                     else sels[i].1[k] in row && Truthy(row[sels[i].1[k]])
  {
    var f := NoFilters.(smartTags := sels);
    KeptIff(ds, f, ctx, row);
    assert forall k: nat :: k < FIXED_CRITERIA ==> Criterion(ds.columns, f, ctx, row, k);
  }
}
