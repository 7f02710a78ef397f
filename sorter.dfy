/**
 * The ordering step of `process_file` (data_processor/core.py): template
 * rows are grouped by product name in order of first appearance, then by
 * model in order of first appearance, then ordered by the number at the
 * start of spec1; rows that agree on all three keep their input order,
 * since a pandas sort on several columns is stable.
 */
module Sorter {
  import opened Wrappers
  import opened Numbers
  import opened Text
  import opened Seqs
  import opened Mapper
  import Utils

  // ---------------------------------------------------------------------
  // _get_spec1_value

  /** `float(t)`, with 0 for anything it rejects. */
  function NumberOrZero(t: string): Dec {
    match ParseFloat(t)
    case Some(v) => v
    case None => Zero
  }

  /**
   * `_get_spec1_value`: the number before the first dash of the stripped
   * text, 0 for empty text and for anything `float` rejects. It is never
   * negative: a minus sign is a dash.
   */
  function Spec1Value(s: string): (r: Dec)
    ensures !r.neg
  {
    if s == "" then Zero
    else
      var first := Strip(Split(Strip(s), Utils.RangeDashes)[0]);
      assert Avoids(first, Utils.RangeDashes) by {
        StripAvoids(Split(Strip(s), Utils.RangeDashes)[0], Utils.RangeDashes);
      }
      NumberOrZero(first)
  }

  /** The numeral of a non-negative number holds no dash and starts with a digit. */
  lemma NumeralShape(d: Dec)
    requires Canonical(d) && !d.neg
    ensures Avoids(NumberText(d), Utils.RangeDashes) && IsDigit(NumberText(d)[0])
  {
    assert NumberText(d) == UnsignedText(d);
  }

  /** The lower end of a range `x-y` is `x`. */
  lemma RangeLowerEnd(d: Dec, rest: string)
    requires Canonical(d) && !d.neg
    requires rest == [] || !IsSpace(rest[|rest| - 1])
    ensures Spec1Value(NumberText(d) + "-" + rest) == d
  {
    var x := NumberText(d);
    var s := x + ['-'] + rest;
    NumeralShape(d);
    assert Strip(s) == s by {
      assert s[0] == x[0];
      assert s[|s| - 1] == (if rest == [] then '-' else rest[|rest| - 1]);
      StripTrimmed(s);
    }
    SplitFirstPiece(x, '-', rest, Utils.RangeDashes);
    NumberTextStripped(d);
    ParseNumberText(d);
  }

  /** Whitespace-only text gets past the emptiness test but strips to "", which `float` rejects, so it reads as 0. */
  lemma BlankReadsZero(s: string)
    requires s != "" && Blank(s)
    ensures Spec1Value(s) == Zero
  {
    StripEmpty(s);
    assert Split("", Utils.RangeDashes) == [""];
    EmptyPieceRejected();
  }

  /** An empty piece is rejected by `float` and so reads as 0. */
  lemma EmptyPieceRejected()
    ensures NumberOrZero(Strip("")) == Zero
  {
    assert Strip("") == "";
    assert ParseFloat("").None?;
  }

  /** A plain number, with no range, reads as itself. */
  lemma PlainNumberReads(d: Dec)
    requires Canonical(d) && !d.neg
    ensures Spec1Value(NumberText(d)) == d
  {
    NumeralShape(d);
    NumberTextStripped(d);
    SplitWhole(NumberText(d), Utils.RangeDashes);
    ParseNumberText(d);
  }

  /** Text that starts with a dash reads as 0: its first piece is empty. */
  lemma LeadingDashReadsZero(s: string)
    requires s != [] && s[0] in Utils.RangeDashes && Strip(s) == s
    ensures Spec1Value(s) == Zero
  {
    SplitLeadingSeparator(s, Utils.RangeDashes);
    EmptyPieceRejected();
  }

  /** The numeral of a negative number starts with its minus sign. */
  lemma NegativeNumeral(d: Dec)
    requires Canonical(d) && d.neg
    ensures NumberText(d) != [] && NumberText(d)[0] == '-'
  {
  }

  /** A negative number reads as 0: its leading minus sign is taken for a range dash. */
  lemma NegativeReadsZero(d: Dec)
    requires Canonical(d) && d.neg
    ensures Spec1Value(NumberText(d)) == Zero
  {
    NegativeNumeral(d);
    NumberTextStripped(d);
    LeadingDashReadsZero(NumberText(d));
  }

  // ---------------------------------------------------------------------
  // first-appearance ranks

  /** The rank of each key: how many distinct keys first appear before it. */
  function Ranks<T(==)>(keys: seq<T>): (r: seq<nat>)
    ensures |r| == |keys|
  {
    DistinctCovers(keys);
    var d := Distinct(keys);
    seq(|keys|, k requires 0 <= k < |keys| => IndexOf(d, keys[k]))
  }

  /**
   * What the rank loop knows after the first `i` keys: `d` lists the keys
   * seen so far, `seen` maps each to its place in `d`, `next` counts them
   * and `ranks` holds the rank of every key visited.
   */
  ghost predicate RankState<T>(keys: seq<T>, i: nat, seen: map<T, nat>, next: nat, ranks: seq<nat>, d: seq<T>) {
    && i <= |keys| && d == Distinct(keys[..i])
    && |ranks| == i && next == |d|
    && (forall x | x in seen :: seen[x] < |d| && d[seen[x]] == x)
    && (forall j | 0 <= j < |d| :: d[j] in seen)
    && (forall k | 0 <= k < i :: ranks[k] < |d| && d[ranks[k]] == keys[k])
  }

  /** The distinct keys of a prefix one longer. */
  lemma DistinctStep<T>(keys: seq<T>, i: nat)
    requires i < |keys|
    ensures Distinct(keys[..i + 1]) ==
      if keys[i] in Distinct(keys[..i]) then Distinct(keys[..i]) else Distinct(keys[..i]) + [keys[i]]
  {
    assert keys[..i + 1] == keys[..i] + [keys[i]];
    DistinctSnoc(keys[..i], keys[i]);
  }

  /** A key not seen before gets the next rank, one fact at a time. */
  lemma RankNewKeyFacts<T>(keys: seq<T>, i: nat, seen: map<T, nat>, next: nat, ranks: seq<nat>, d: seq<T>)
    requires i < |keys| && RankState(keys, i, seen, next, ranks, d) && keys[i] !in seen
    ensures d + [keys[i]] == Distinct(keys[..i + 1])
    ensures forall x | x in seen :: seen[x] < |d| && (d + [keys[i]])[seen[x]] == x
    ensures forall j | 0 <= j < |d| + 1 :: (d + [keys[i]])[j] in seen[keys[i] := next]
    ensures forall k | 0 <= k < i + 1 :: (ranks + [next])[k] < |d| + 1 && (d + [keys[i]])[(ranks + [next])[k]] == keys[k]
  {
    DistinctStep(keys, i);
    assert keys[i] !in d by {
      forall j | 0 <= j < |d|
        ensures d[j] != keys[i]
      {
        assert d[j] in seen;
      }
    }
    var seen', d', r' := seen[keys[i] := next], d + [keys[i]], ranks + [next];
    assert d' == Distinct(keys[..i + 1]);
    forall x | x in seen
      ensures d'[seen[x]] == x
    {
      assert d'[seen[x]] == d[seen[x]];
    }
    forall j | 0 <= j < |d'|
      ensures d'[j] in seen'
    {
      if j < |d| {
        assert d'[j] == d[j];
      }
    }
    forall k | 0 <= k < i + 1
      ensures r'[k] < |d'| && d'[r'[k]] == keys[k]
    {
      if k < i {
        assert r'[k] == ranks[k] && d'[ranks[k]] == d[ranks[k]];
      }
    }
  }

  /** A key not seen before gets the next rank. */
  lemma RankNewKey<T>(keys: seq<T>, i: nat, seen: map<T, nat>, next: nat, ranks: seq<nat>, d: seq<T>)
    requires i < |keys| && RankState(keys, i, seen, next, ranks, d) && keys[i] !in seen
    ensures RankState(keys, i + 1, seen[keys[i] := next], next + 1, ranks + [next], d + [keys[i]])
  {
    RankNewKeyFacts(keys, i, seen, next, ranks, d);
  }

  /** A key seen before gets its old rank. */
  lemma RankKnownKey<T>(keys: seq<T>, i: nat, seen: map<T, nat>, next: nat, ranks: seq<nat>, d: seq<T>)
    requires i < |keys| && RankState(keys, i, seen, next, ranks, d) && keys[i] in seen
    ensures RankState(keys, i + 1, seen, next, ranks + [seen[keys[i]]], d)
  {
    DistinctStep(keys, i);
    assert keys[i] in d;
    var r' := ranks + [seen[keys[i]]];
    forall k | 0 <= k < i + 1
      ensures r'[k] < |d| && d[r'[k]] == keys[k]
    {
      if k < i {
        assert r'[k] == ranks[k];
      }
    }
  }

  /** The rank loop: a dictionary from key to rank and a counter for the next new key. */
  method ComputeRanks<T(==)>(keys: seq<T>) returns (ranks: seq<nat>)
    ensures ranks == Ranks(keys)
  {
    var seen: map<T, nat> := map[];
    var next := 0;
    ranks := [];
    ghost var d: seq<T> := [];
    for i := 0 to |keys|
      invariant RankState(keys, i, seen, next, ranks, d)
    {
      var key := keys[i];
      if key !in seen {
        RankNewKey(keys, i, seen, next, ranks, d);
        seen := seen[key := next];
        next := next + 1;
        d := d + [key];
      } else {
        RankKnownKey(keys, i, seen, next, ranks, d);
      }
      ranks := ranks + [seen[key]];
    }
    assert keys[..|keys|] == keys;
    forall k | 0 <= k < |keys|
      ensures ranks[k] == Ranks(keys)[k]
    {
      assert d[ranks[k]] == keys[k];
      var j := IndexOf(d, keys[k]);
      assert d[j] == d[ranks[k]];
    }
  }

  /** Appending a new key leaves the index of every earlier key as it was. */
  lemma IndexOfSnoc<T>(d: seq<T>, key: T)
    requires key !in d
    ensures IndexOf(d + [key], key) == |d|
    ensures forall x | x in d :: IndexOf(d + [key], x) == IndexOf(d, x)
  {
    forall x | x in d
      ensures IndexOf(d + [key], x) == IndexOf(d, x)
    {
      FirstIndexAppend(d, key, x);
    }
  }

  /** Two rows share a rank exactly when they share the key. */
  lemma SameRankSameKey<T>(keys: seq<T>, i: nat, j: nat)
    requires i < |keys| && j < |keys|
    ensures Ranks(keys)[i] == Ranks(keys)[j] <==> keys[i] == keys[j]
  {
    DistinctCovers(keys);
    var d := Distinct(keys);
    assert Ranks(keys)[i] == IndexOf(d, keys[i]) && Ranks(keys)[j] == IndexOf(d, keys[j]);
  }

  /** A lower rank means an earlier first appearance, and conversely. */
  lemma RankFollowsFirstAppearance<T>(keys: seq<T>, i: nat, j: nat)
    requires i < |keys| && j < |keys|
    ensures Ranks(keys)[i] < Ranks(keys)[j] <==> FirstIndex(keys, keys[i]) < FirstIndex(keys, keys[j])
  {
    DistinctCovers(keys);
    var d := Distinct(keys);
    var a, b := IndexOf(d, keys[i]), IndexOf(d, keys[j]);
    assert Ranks(keys)[i] == a && Ranks(keys)[j] == b;
    if a < b {
      DistinctOrder(keys, a, b);
    } else if b < a {
      DistinctOrder(keys, b, a);
    }
  }

  // ---------------------------------------------------------------------
  // the stable sort, for rows of any type

  /** A row with its sort keys and its position in the input. */
  datatype Keyed<R> = Keyed(row: R, pRank: nat, mRank: nat, s1: real, pos: nat)

  /** The order of `sort_values(by=['p_rank', 'm_rank', 's1_val'])`. */
  predicate KeyLe<R>(a: Keyed<R>, b: Keyed<R>) {
    a.pRank < b.pRank || (a.pRank == b.pRank && (a.mRank < b.mRank || (a.mRank == b.mRank && a.s1 <= b.s1)))
  }

  predicate Sorted<R>(s: seq<Keyed<R>>) {
    forall i, j | 0 <= i < j < |s| :: KeyLe(s[i], s[j])
  }

  /** Rows whose keys tie keep their input order. */
  predicate Stable<R>(s: seq<Keyed<R>>) {
    forall i, j | 0 <= i < j < |s| :: KeyLe(s[j], s[i]) ==> s[i].pos < s[j].pos
  }

  /** Every position in `s` is below `p`. */
  predicate Below<R>(s: seq<Keyed<R>>, p: nat) {
    forall i | 0 <= i < |s| :: s[i].pos < p
  }

  /** Stable insertion of `x` into a sorted list: after every element not above it. */
  function Insert<R(==)>(s: seq<Keyed<R>>, x: Keyed<R>): (r: seq<Keyed<R>>)
    ensures |r| == |s| + 1
    ensures multiset(r) == multiset(s) + multiset{x}
  {
    if s == [] || KeyLe(s[|s| - 1], x) then s + [x]
    else
      var init := s[..|s| - 1];
      assert s == init + [s[|s| - 1]];
      Insert(init, x) + [s[|s| - 1]]
  }

  /** Every element of an insertion is the inserted one or was already there. */
  lemma InsertFrom<R>(s: seq<Keyed<R>>, x: Keyed<R>, y: Keyed<R>)
    requires y in Insert(s, x)
    ensures y == x || y in s
  {
    assert y in multiset(Insert(s, x));
  }

  /** Insertion keeps the list sorted. */
  lemma {:induction false} InsertSorted<R>(s: seq<Keyed<R>>, x: Keyed<R>)
    requires Sorted(s)
    ensures Sorted(Insert(s, x))
    decreases |s|
  {
    if s == [] || KeyLe(s[|s| - 1], x) {
      forall i | 0 <= i < |s|
        ensures KeyLe(s[i], x)
      {
        if i < |s| - 1 {
          assert KeyLe(s[i], s[|s| - 1]);
        }
      }
    } else {
      var init := s[..|s| - 1];
      var last := s[|s| - 1];
      InsertSorted(init, x);
      var r' := Insert(init, x);
      forall i | 0 <= i < |r'|
        ensures KeyLe(r'[i], last)
      {
        InsertFrom(init, x, r'[i]);
      }
      assert Insert(s, x) == r' + [last];
    }
  }

  /** Inserting an element that comes after everything already there keeps ties in input order. */
  lemma {:induction false} InsertStable<R>(s: seq<Keyed<R>>, x: Keyed<R>)
    requires Stable(s) && Below(s, x.pos)
    ensures Stable(Insert(s, x)) && Below(Insert(s, x), x.pos + 1)
    decreases |s|
  {
    if !(s == [] || KeyLe(s[|s| - 1], x)) {
      var init := s[..|s| - 1];
      var last := s[|s| - 1];
      InsertStable(init, x);
      var r' := Insert(init, x);
      forall i | 0 <= i < |r'|
        ensures KeyLe(last, r'[i]) ==> r'[i].pos < last.pos
      {
        InsertFrom(init, x, r'[i]);
        if r'[i] != x {
          var k :| 0 <= k < |init| && init[k] == r'[i];
          assert s[k] == init[k];
        }
      }
      assert Insert(s, x) == r' + [last];
    }
  }

  /** Insertion, one element after another. */
  function InsertionSort<R(==)>(s: seq<Keyed<R>>): (r: seq<Keyed<R>>)
    ensures multiset(r) == multiset(s)
  {
    if s == [] then []
    else
      var init := s[..|s| - 1];
      assert s == init + [s[|s| - 1]];
      Insert(InsertionSort(init), s[|s| - 1])
  }

  /** Positions increase along the input. */
  predicate Numbered<R>(s: seq<Keyed<R>>) {
    forall i | 0 <= i < |s| :: s[i].pos == i
  }

  /** Sorting numbered rows gives a sorted and stable list. */
  lemma {:induction false} InsertionSortSorted<R>(s: seq<Keyed<R>>)
    requires Numbered(s)
    ensures Sorted(InsertionSort(s)) && Stable(InsertionSort(s)) && Below(InsertionSort(s), |s|)
    decreases |s|
  {
    if s != [] {
      var init := s[..|s| - 1];
      InsertionSortSorted(init);
      InsertSorted(InsertionSort(init), s[|s| - 1]);
      InsertStable(InsertionSort(init), s[|s| - 1]);
    }
  }

  /** The rows with their `p_rank`, `m_rank` and `s1_val` columns and their positions. */
  function Tag<R>(rows: seq<R>, p: seq<nat>, m: seq<nat>, v: seq<real>): (r: seq<Keyed<R>>)
    requires |p| == |m| == |v| == |rows|
    ensures |r| == |rows| && Numbered(r)
    ensures forall k | 0 <= k < |rows| :: r[k].row == rows[k] && r[k].pRank == p[k] && r[k].mRank == m[k] && r[k].s1 == v[k]
  {
    seq(|rows|, k requires 0 <= k < |rows| => Keyed(rows[k], p[k], m[k], v[k], k))
  }

  /** The rows of a keyed list, dropping the helper columns. */
  function Untag<R>(s: seq<Keyed<R>>): (r: seq<R>)
    ensures |r| == |s|
    ensures forall k | 0 <= k < |s| :: r[k] == s[k].row
  {
    if s == [] then [] else Untag(s[..|s| - 1]) + [s[|s| - 1].row]
  }

  /** Untagging the rows of an insertion adds the inserted row. */
  lemma {:induction false} UntagInsert<R>(s: seq<Keyed<R>>, x: Keyed<R>)
    ensures multiset(Untag(Insert(s, x))) == multiset(Untag(s)) + multiset{x.row}
    decreases |s|
  {
    if s == [] || KeyLe(s[|s| - 1], x) {
      assert Untag(s + [x]) == Untag(s) + [x.row];
    } else {
      var init := s[..|s| - 1];
      UntagInsert(init, x);
      assert Untag(s) == Untag(init) + [s[|s| - 1].row];
      assert Untag(Insert(s, x)) == Untag(Insert(init, x)) + [s[|s| - 1].row];
    }
  }

  lemma {:induction false} UntagInsertionSort<R>(s: seq<Keyed<R>>)
    ensures multiset(Untag(InsertionSort(s))) == multiset(Untag(s))
    decreases |s|
  {
    if s != [] {
      var init := s[..|s| - 1];
      UntagInsertionSort(init);
      UntagInsert(InsertionSort(init), s[|s| - 1]);
      assert Untag(s) == Untag(init) + [s[|s| - 1].row];
    }
  }

  /**
   * Sorting keyed rows: the result holds the same rows, ordered by the
   * keys, ties in input order, and each entry carries the keys of its own
   * input position.
   */
  lemma SortKeyed<R>(rows: seq<R>, p: seq<nat>, m: seq<nat>, v: seq<real>)
    requires |p| == |m| == |v| == |rows|
    ensures var s := InsertionSort(Tag(rows, p, m, v));
      && multiset(Untag(s)) == multiset(rows) && Sorted(s) && Stable(s)
      && forall i | 0 <= i < |s| ::
           && s[i].pos < |rows| && s[i].row == rows[s[i].pos]
           && s[i].pRank == p[s[i].pos] && s[i].mRank == m[s[i].pos] && s[i].s1 == v[s[i].pos]
  {
    var t := Tag(rows, p, m, v);
    var s := InsertionSort(t);
    InsertionSortSorted(t);
    UntagInsertionSort(t);
    assert Untag(t) == rows;
    forall i | 0 <= i < |s|
      ensures s[i].pos < |rows| && s[i] == t[s[i].pos]
    {
      assert s[i] in multiset(t);
    }
  }

  // ---------------------------------------------------------------------
  // the sort step over template rows

  /** `str(name).strip()` of every row. */
  function NameKeys(rows: seq<TemplateRow>): (r: seq<string>)
    ensures |r| == |rows|
  {
    seq(|rows|, k requires 0 <= k < |rows| => Strip(rows[k].productName))
  }

  /** `str(model).strip()` of every row. */
  function ModelKeys(rows: seq<TemplateRow>): (r: seq<string>)
    ensures |r| == |rows|
  {
    seq(|rows|, k requires 0 <= k < |rows| => Strip(rows[k].model))
  }

  /** The `s1_val` column. */
  function Spec1Values(rows: seq<TemplateRow>): (r: seq<real>)
    ensures |r| == |rows|
  {
    seq(|rows|, k requires 0 <= k < |rows| => ToReal(Spec1Value(rows[k].spec1)))
  }

  /** The template rows with their keys, in sorted order. */
  function SortedTags(rows: seq<TemplateRow>): seq<Keyed<TemplateRow>> {
    InsertionSort(Tag(rows, Ranks(NameKeys(rows)), Ranks(ModelKeys(rows)), Spec1Values(rows)))
  }

  /** The template rows in sorted order. */
  function SortedRows(rows: seq<TemplateRow>): seq<TemplateRow> {
    Untag(SortedTags(rows))
  }

  /** `sort_values` on the keyed rows, then the dropping of the helper columns. */
  method SortKeyedRows<R(==)>(tagged: seq<Keyed<R>>) returns (sorted: seq<R>)
    ensures sorted == Untag(InsertionSort(tagged))
  {
    var keyed: seq<Keyed<R>> := [];
    for i := 0 to |tagged|
      invariant keyed == InsertionSort(tagged[..i])
    {
      assert tagged[..i + 1][..i] == tagged[..i];
      keyed := Insert(keyed, tagged[i]);
    }
    assert tagged[..|tagged|] == tagged;
    sorted := [];
    for i := 0 to |keyed|
      invariant sorted == Untag(keyed[..i])
    {
      assert keyed[..i + 1][..i] == keyed[..i];
      sorted := sorted + [keyed[i].row];
    }
    assert keyed[..|keyed|] == keyed;
  }

  /** The sort step: both rank loops, the spec1 values, then the sort. */
  method SortTemplate(rows: seq<TemplateRow>) returns (sorted: seq<TemplateRow>)
    ensures sorted == SortedRows(rows)
  {
    var pRanks := ComputeRanks(NameKeys(rows));
    var mRanks := ComputeRanks(ModelKeys(rows));
    sorted := SortKeyedRows(Tag(rows, pRanks, mRanks, Spec1Values(rows)));
  }

  /** Sorting neither loses nor duplicates a row. */
  lemma SortedRowsPermutation(rows: seq<TemplateRow>)
    ensures multiset(SortedRows(rows)) == multiset(rows)
  {
    SortKeyed(rows, Ranks(NameKeys(rows)), Ranks(ModelKeys(rows)), Spec1Values(rows));
  }

  /**
   * The sorted rows are ordered by name rank, model rank and spec1 value,
   * rows with equal keys keep their input order, and each row carries the
   * ranks and value of its own input position.
   */
  lemma SortedRowsOrdered(rows: seq<TemplateRow>)
    ensures var s := SortedTags(rows);
      && Untag(s) == SortedRows(rows) && Sorted(s) && Stable(s)
      && forall i | 0 <= i < |s| ::
           && s[i].pos < |rows| && s[i].row == rows[s[i].pos]
           && s[i].pRank == Ranks(NameKeys(rows))[s[i].pos] && s[i].mRank == Ranks(ModelKeys(rows))[s[i].pos]
           && s[i].s1 == ToReal(Spec1Value(rows[s[i].pos].spec1))
  {
    SortKeyed(rows, Ranks(NameKeys(rows)), Ranks(ModelKeys(rows)), Spec1Values(rows));
  }
}
