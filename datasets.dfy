/**
 * A dataset split as the filtering code sees it: a set of column names and a
 * sequence of rows, each row a map from column name to a dynamically typed
 * cell value. `Filter` is the split's `filter` operation: it keeps, in order,
 * the rows a predicate accepts.
 */
module Datasets {

  /** A cell value, with the dynamic types the filtered columns hold. */
  datatype Value =
    | Bool(b: bool)
    | Int(i: int)
    | Float(x: real)
    | Str(s: string)
    | List(items: seq<Value>)

  /** Python truthiness of a cell value. */
  predicate Truthy(v: Value)
  {
    match v
    case Bool(b) => b
    case Int(i) => i != 0
    case Float(x) => x != 0.0
    case Str(s) => s != []
    case List(items) => items != []
  }

  type Row = map<string, Value>

  datatype Dataset = Dataset(columns: set<string>, rows: seq<Row>)

  /** Every row holds exactly the split's columns. */
  predicate Rectangular(ds: Dataset)
  {
    forall i :: 0 <= i < |ds.rows| ==> ds.rows[i].Keys == ds.columns
  }

  /** The rows of `s` that `p` accepts, in their original order. */
  function Filter<T>(s: seq<T>, p: T -> bool): (r: seq<T>)
    ensures |r| <= |s|
    ensures forall x :: x in r ==> x in s && p(x)
  {
    if s == [] then []
    else if p(s[0]) then [s[0]] + Filter(s[1..], p)
    else Filter(s[1..], p)
  }

  /** `idx` lists, in increasing order, the positions of `s` that make up `sub`. */
  ghost predicate SubsequenceVia<T>(sub: seq<T>, s: seq<T>, idx: seq<int>)
  {
    && |idx| == |sub|
    && (forall k :: 0 <= k < |idx| ==> 0 <= idx[k] < |s| && sub[k] == s[idx[k]])
    && (forall k, l :: 0 <= k < l < |idx| ==> idx[k] < idx[l])
  }

  /** `sub` is obtained from `s` by deleting elements, without reordering. */
  ghost predicate IsSubsequence<T>(sub: seq<T>, s: seq<T>)
  {
    exists idx :: SubsequenceVia(sub, s, idx)
  }

  /** Positions in the tail of `s`, shifted by one, are positions in `s` other than 0. */
  lemma ShiftIndices<T>(sub: seq<T>, s: seq<T>, idx: seq<int>) returns (shifted: seq<int>)
    requires s != [] && SubsequenceVia(sub, s[1..], idx)
    ensures SubsequenceVia(sub, s, shifted)
    ensures forall k :: 0 <= k < |shifted| ==> shifted[k] > 0
    ensures |shifted| == |idx| && forall k :: 0 <= k < |idx| ==> shifted[k] == idx[k] + 1
  {
    shifted := seq(|idx|, k requires 0 <= k < |idx| => idx[k] + 1);
    forall k | 0 <= k < |shifted| ensures 0 < shifted[k] < |s| && sub[k] == s[shifted[k]] {
      assert s[1..][idx[k]] == s[idx[k] + 1];
    }
  }

  /** Position 0 can go in front of positions that are all past it. */
  lemma PrependFirst<T>(sub: seq<T>, s: seq<T>, idx: seq<int>)
    requires s != [] && SubsequenceVia(sub, s, idx)
    requires forall k :: 0 <= k < |idx| ==> idx[k] > 0
    ensures SubsequenceVia([s[0]] + sub, s, [0] + idx)
  {
    var front, whole := [0] + idx, [s[0]] + sub;
    forall k | 0 < k < |front| ensures front[k] == idx[k - 1] && whole[k] == sub[k - 1] { }
  }

  /** Filtering only removes elements: the result is a subsequence of the input. */
  lemma {:induction false} FilterIsSubsequence<T>(s: seq<T>, p: T -> bool)
    ensures IsSubsequence(Filter(s, p), s)
  {
    if s == [] {
      assert SubsequenceVia<T>([], s, []);
    } else {
      FilterIsSubsequence(s[1..], p);
      var tail := Filter(s[1..], p);
      var idx :| SubsequenceVia(tail, s[1..], idx);
      var shifted := ShiftIndices(tail, s, idx);
      if p(s[0]) {
        PrependFirst(tail, s, shifted);
        assert SubsequenceVia(Filter(s, p), s, [0] + shifted);
      } else {
        assert SubsequenceVia(Filter(s, p), s, shifted);
      }
    }
  }

  /** Shifting every position by one shifts membership by one. */
  lemma ShiftedMembers(idx: seq<int>, shifted: seq<int>, i: int)
    requires |shifted| == |idx| && forall k :: 0 <= k < |idx| ==> shifted[k] == idx[k] + 1
    ensures i in shifted <==> i - 1 in idx
  {
    if i - 1 in idx {
      var k :| 0 <= k < |idx| && idx[k] == i - 1;
      assert shifted[k] == i;
    }
    if i in shifted {
      var k :| 0 <= k < |shifted| && shifted[k] == i;
      assert idx[k] == i - 1;
    }
  }

  /**
   * Filtering keeps every accepted position, not just every accepted value:
   * the result is made of exactly the positions of `s` whose element `p`
   * accepts, in increasing order, so duplicates survive as often as they occur.
   */
  lemma {:induction false} FilterPositions<T>(s: seq<T>, p: T -> bool) returns (idx: seq<int>)
    ensures SubsequenceVia(Filter(s, p), s, idx)
    ensures forall i :: 0 <= i < |s| ==> (p(s[i]) <==> i in idx)
    decreases |s|
  {
    if s == [] {
      idx := [];
    } else {
      var tail := Filter(s[1..], p);
      var tailIdx := FilterPositions(s[1..], p);
      var shifted := ShiftIndices(tail, s, tailIdx);
      assert forall i :: 0 < i < |s| ==> (p(s[i]) <==> i in shifted) by {
        forall i | 0 < i < |s| ensures p(s[i]) <==> i in shifted {
          assert s[i] == s[1..][i - 1];
          ShiftedMembers(tailIdx, shifted, i);
        }
      }
      assert 0 !in shifted;
      if p(s[0]) {
        PrependFirst(tail, s, shifted);
        idx := [0] + shifted;
        assert Filter(s, p) == [s[0]] + tail;
        forall i | 0 <= i < |s| ensures p(s[i]) <==> i in idx {
          assert i in idx <==> i == 0 || i in shifted;
        }
      } else {
        idx := shifted;
      }
    }
  }

  /** An element survives filtering exactly when it was there and is accepted. */
  lemma {:induction false} FilterMember<T>(s: seq<T>, p: T -> bool, x: T)
    ensures x in Filter(s, p) <==> x in s && p(x)
  {
    if s != [] {
      FilterMember(s[1..], p, x);
      assert x in s <==> x == s[0] || x in s[1..];
    }
  }

  /** A predicate that accepts every element leaves the sequence unchanged. */
  lemma {:induction false} FilterKeepsAll<T>(s: seq<T>, p: T -> bool)
    requires forall i :: 0 <= i < |s| ==> p(s[i])
    ensures Filter(s, p) == s
  {
    if s != [] {
      FilterKeepsAll(s[1..], p);
    }
  }

  /** Filtering depends only on the predicate's verdicts on the elements present. */
  lemma {:induction false} FilterAgrees<T>(s: seq<T>, p: T -> bool, q: T -> bool)
    requires forall i :: 0 <= i < |s| ==> p(s[i]) == q(s[i])
    ensures Filter(s, p) == Filter(s, q)
  {
    if s != [] {
      FilterAgrees(s[1..], p, q);
    }
  }

  /** Two filters in a row are one filter by the conjunction of their predicates. */
  lemma {:induction false} FilterTwice<T>(s: seq<T>, p: T -> bool, q: T -> bool, both: T -> bool)
    requires forall i :: 0 <= i < |s| ==> both(s[i]) == (p(s[i]) && q(s[i]))
    ensures Filter(Filter(s, p), q) == Filter(s, both)
  {
    if s != [] {
      FilterTwice(s[1..], p, q, both);
    }
  }

  /** Filtering again by the same predicate changes nothing. */
  lemma FilterIdempotent<T>(s: seq<T>, p: T -> bool)
    ensures Filter(Filter(s, p), p) == Filter(s, p)
  {
    var r := Filter(s, p);
    forall i | 0 <= i < |r| ensures p(r[i]) {
      assert r[i] in r;
    }
    FilterKeepsAll(r, p);
  }

  /** Filtering keeps a rectangular split rectangular. */
  lemma FilterKeepsRectangular(ds: Dataset, p: Row -> bool)
    requires Rectangular(ds)
    ensures Rectangular(Dataset(ds.columns, Filter(ds.rows, p)))
  {
    var r := Filter(ds.rows, p);
    forall i | 0 <= i < |r| ensures r[i].Keys == ds.columns {
      assert r[i] in r;
    }
  }
}
