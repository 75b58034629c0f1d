/** The counting dictionary both the stabiliser's vote and the analytics build with
    `counts[k] = counts.get(k, 0) + 1`. A Python dict keeps its keys in insertion order and
    `max`/`sorted` over it break ties by that order, so it is modelled as a sequence of
    (label, count) entries rather than as a `map`. */
module Tally {

  type Counts = seq<(string, nat)>

  /** No label has two entries. */
  predicate Distinct(c: Counts) {
    forall i, j :: 0 <= i < j < |c| ==> c[i].0 != c[j].0
  }

  /** `c.get(k, 0)`. */
  function Get(c: Counts, k: string): (n: nat)
    ensures n > 0 ==> exists i :: 0 <= i < |c| && c[i] == (k, n)
  {
    if |c| == 0 then 0
    else if c[0].0 == k then c[0].1
    else Get(c[1..], k)
  }

  /** With distinct labels, `Get` reads the one entry of its label. */
  lemma {:induction false} GetEntry(c: Counts, i: nat)
    requires Distinct(c) && i < |c|
    ensures Get(c, c[i].0) == c[i].1
  {
    if i > 0 {
      GetEntry(c[1..], i - 1);
    }
  }

  /** The sum of all counts (`sum(d.values())`). */
  function Sum(c: Counts): nat {
    if |c| == 0 then 0 else c[0].1 + Sum(c[1..])
  }

  /** `c[k] = c.get(k, 0) + 1`: an existing entry is incremented in place, a new label is
      appended at the end; every other entry keeps its label and its position. */
  function Bump(c: Counts, k: string): (r: Counts)
    ensures |c| <= |r| <= |c| + 1
    ensures forall i :: 0 <= i < |c| ==> r[i].0 == c[i].0
    ensures forall i :: 0 <= i < |c| && c[i].0 != k ==> r[i] == c[i]
    ensures |r| == |c| + 1 ==> r[|c|] == (k, 1)
  {
    if |c| == 0 then [(k, 1)]
    else if c[0].0 == k then [(k, c[0].1 + 1)] + c[1..]
    else [c[0]] + Bump(c[1..], k)
  }

  /** Bumping adds one to the bumped label and leaves every other label's count alone. */
  lemma {:induction false} BumpGet(c: Counts, k: string, j: string)
    ensures Get(Bump(c, k), j) == Get(c, j) + (if j == k then 1 else 0)
  {
    if |c| > 0 && c[0].0 != k {
      BumpGet(c[1..], k, j);
    }
  }

  /** Bumping adds one to the total. */
  lemma {:induction false} BumpSum(c: Counts, k: string)
    ensures Sum(Bump(c, k)) == Sum(c) + 1
  {
    if |c| > 0 && c[0].0 != k {
      BumpSum(c[1..], k);
    }
  }

  /** Bumping never creates a second entry for a label, and it appends only a label that
      had no entry. */
  lemma {:induction false} BumpDistinct(c: Counts, k: string)
    requires Distinct(c)
    ensures Distinct(Bump(c, k))
    ensures |Bump(c, k)| == |c| + 1 <==> forall i :: 0 <= i < |c| ==> c[i].0 != k
  {
    if |c| > 0 && c[0].0 != k {
      BumpDistinct(c[1..], k);
      var r := Bump(c, k);
      assert r == [c[0]] + Bump(c[1..], k);
      forall j | 1 <= j < |r| ensures r[j].0 != c[0].0 {
        var t := Bump(c[1..], k);
        assert r[j] == t[j - 1];
        if j - 1 < |c[1..]| {
          assert t[j - 1].0 == c[j].0;
        } else {
          assert t[j - 1] == (k, 1);
        }
      }
    }
  }

  /** The dictionary built by bumping every label of `ls` in turn. */
  function Histogram(ls: seq<string>): (r: Counts)
    ensures Distinct(r)
    ensures forall k :: Get(r, k) == multiset(ls)[k]
    ensures Sum(r) == |ls|
    ensures forall i :: 0 <= i < |r| ==> r[i].0 in ls
  {
    if |ls| == 0 then []
    else
      var init, last := ls[..|ls| - 1], ls[|ls| - 1];
      var prev := Histogram(init);
      BumpStep(prev, init, last);
      assert ls == init + [last];
      Bump(prev, last)
  }

  /** Bumping the next label of a list turns the dictionary of the list so far into the
      dictionary of the longer list. */
  lemma BumpStep(prev: Counts, init: seq<string>, last: string)
    requires Distinct(prev)
    requires forall k :: Get(prev, k) == multiset(init)[k]
    requires Sum(prev) == |init|
    requires forall i :: 0 <= i < |prev| ==> prev[i].0 in init
    ensures var r := Bump(prev, last);
      && Distinct(r)
      && (forall k :: Get(r, k) == multiset(init + [last])[k])
      && Sum(r) == |init + [last]|
      && (forall i :: 0 <= i < |r| ==> r[i].0 in init + [last])
  {
    var r, ls := Bump(prev, last), init + [last];
    BumpDistinct(prev, last);
    BumpSum(prev, last);
    forall k ensures Get(r, k) == multiset(ls)[k] {
      BumpGet(prev, last, k);
    }
    forall i | 0 <= i < |r| ensures r[i].0 in ls {
      if i < |prev| {
        assert r[i].0 == prev[i].0 && prev[i].0 in init;
      }
    }
  }

  /** `x` occurs in `ls` before position `q`. */
  predicate OccursBefore(ls: seq<string>, x: string, q: int) {
    exists p :: 0 <= p < q && p < |ls| && ls[p] == x
  }

  /** The entries come in order of first appearance in `ls`: wherever the label of a later
      entry occurs, the label of an earlier entry has already occurred before it. */
  predicate FirstAppearanceOrder(c: Counts, ls: seq<string>) {
    forall i, j, q :: 0 <= i < j < |c| && 0 <= q < |ls| && ls[q] == c[j].0 ==>
      OccursBefore(ls, c[i].0, q)
  }

  /** Bumping the next label keeps the entries in order of first appearance. */
  lemma BumpKeepsOrder(prev: Counts, init: seq<string>, last: string)
    requires Distinct(prev) && FirstAppearanceOrder(prev, init)
    requires forall i :: 0 <= i < |prev| ==> prev[i].0 in init
    requires Get(prev, last) == multiset(init)[last]
    ensures FirstAppearanceOrder(Bump(prev, last), init + [last])
  {
    var r, ls := Bump(prev, last), init + [last];
    forall i, j, q | 0 <= i < j < |r| && 0 <= q < |ls| && ls[q] == r[j].0
      ensures OccursBefore(ls, r[i].0, q)
    {
      BumpPairOrder(prev, init, last, i, j, q);
    }
  }

  /** One pair of entries after a bump. */
  lemma BumpPairOrder(prev: Counts, init: seq<string>, last: string, i: nat, j: nat, q: nat)
    requires Distinct(prev) && FirstAppearanceOrder(prev, init)
    requires forall k :: 0 <= k < |prev| ==> prev[k].0 in init
    requires Get(prev, last) == multiset(init)[last]
    requires i < j < |Bump(prev, last)| && q < |init| + 1
    requires (init + [last])[q] == Bump(prev, last)[j].0
    ensures OccursBefore(init + [last], Bump(prev, last)[i].0, q)
  {
    var r := Bump(prev, last);
    assert r[i].0 == prev[i].0;
    if j < |prev| {
      assert r[j].0 == prev[j].0;
      OldLabelOrder(prev, init, last, i, j, q);
    } else {
      BumpDistinct(prev, last);
      assert |r| == |prev| + 1 && r[j] == (last, 1);
      NewLabelOrder(prev, init, last, i, q);
    }
  }

  /** Two labels that already had entries keep their order when the list grows. */
  lemma OldLabelOrder(prev: Counts, init: seq<string>, last: string, i: nat, j: nat, q: nat)
    requires FirstAppearanceOrder(prev, init)
    requires forall k :: 0 <= k < |prev| ==> prev[k].0 in init
    requires i < j < |prev| && q < |init| + 1 && (init + [last])[q] == prev[j].0
    ensures OccursBefore(init + [last], prev[i].0, q)
  {
    assert prev[j].0 in init;
    var q' :| 0 <= q' < |init| && init[q'] == prev[j].0;
    var q'' := if q < |init| then q else q';
    assert init[q''] == prev[j].0;
    assert OccursBefore(init, prev[i].0, q'');
    var p :| 0 <= p < q'' && p < |init| && init[p] == prev[i].0;
    assert (init + [last])[p] == init[p];
  }

  /** A label appended as a new entry first occurs at the end of the grown list, after
      every label that already had an entry. */
  lemma NewLabelOrder(prev: Counts, init: seq<string>, last: string, i: nat, q: nat)
    requires forall k :: 0 <= k < |prev| ==> prev[k].0 != last
    requires forall k :: 0 <= k < |prev| ==> prev[k].0 in init
    requires Get(prev, last) == multiset(init)[last]
    requires i < |prev| && q < |init| + 1 && (init + [last])[q] == last
    ensures OccursBefore(init + [last], prev[i].0, q)
  {
    FirstOccurrenceOfNew(prev, init, last, q);
    assert prev[i].0 in init;
    var p :| 0 <= p < |init| && init[p] == prev[i].0;
    assert (init + [last])[p] == init[p];
  }

  /** A label with no entry yet occurs in `init + [last]` only at the end. */
  lemma FirstOccurrenceOfNew(prev: Counts, init: seq<string>, last: string, q: nat)
    requires forall i :: 0 <= i < |prev| ==> prev[i].0 != last
    requires Get(prev, last) == multiset(init)[last]
    requires q < |init| + 1 && (init + [last])[q] == last
    ensures q == |init|
  {
    assert forall k :: 0 <= k < |init| ==> init[k] in multiset(init);
  }

  /** The tally lists its labels in order of first appearance, as a Python dict keeps
      insertion order. */
  lemma {:induction false} HistogramOrder(ls: seq<string>)
    ensures FirstAppearanceOrder(Histogram(ls), ls)
    decreases |ls|
  {
    if |ls| > 0 {
      var init, last := ls[..|ls| - 1], ls[|ls| - 1];
      var prev := Histogram(init);
      HistogramOrder(init);
      BumpKeepsOrder(prev, init, last);
      SplitLast(ls);
    }
  }

  lemma SplitLast<T>(s: seq<T>)
    requires |s| > 0
    ensures s == s[..|s| - 1] + [s[|s| - 1]]
  {
  }

  /** Every entry of a tally holds a positive count: labels never seen do not appear. */
  lemma TallyEntriesPositive(ls: seq<string>, i: nat)
    requires i < |Histogram(ls)|
    ensures Histogram(ls)[i].1 == multiset(ls)[Histogram(ls)[i].0] > 0
  {
    GetEntry(Histogram(ls), i);
  }

  /** Two different labels together occur at most as often as there are labels. */
  lemma {:induction false} TwoLabelsBound(ls: seq<string>, a: string, b: string)
    requires a != b
    ensures multiset(ls)[a] + multiset(ls)[b] <= |ls|
  {
    if |ls| > 0 {
      TwoLabelsBound(ls[1..], a, b);
      assert ls == [ls[0]] + ls[1..];
    }
  }
}
