/**
 * Counting occurrences into a dictionary (`acc[k] = (acc[k] || 0) + 1` over
 * a list, then `Object.entries`): the entries come out in first-appearance
 * order of the keys, each with its number of occurrences.
 */
module Tally {

  /** The distinct elements of `xs`, in order of first appearance. */
  function Keys<K(==,!new)>(xs: seq<K>): (r: seq<K>)
    ensures forall i, j :: 0 <= i < j < |r| ==> r[i] != r[j]
    ensures forall k :: k in r <==> k in xs
  {
    if xs == [] then []
    else
      var init := xs[..|xs| - 1];
      var p := Keys(init);
      assert xs == init + [xs[|xs| - 1]];
      if xs[|xs| - 1] in p then p else p + [xs[|xs| - 1]]
  }

  /** The entries of the count dictionary: each key with its multiplicity. */
  function Tally<K(==,!new)>(xs: seq<K>): (r: seq<(K, nat)>)
    ensures |r| == |Keys(xs)|
    ensures forall i :: 0 <= i < |r| ==> r[i] == (Keys(xs)[i], multiset(xs)[Keys(xs)[i]])
  {
    var ks := Keys(xs);
    seq(|ks|, i requires 0 <= i < |ks| => (ks[i], multiset(xs)[ks[i]]))
  }

  function SumCounts<K>(e: seq<(K, nat)>): nat {
    if e == [] then 0 else e[0].1 + SumCounts(e[1..])
  }

  function EntryKeys<K>(e: seq<(K, nat)>): (r: seq<K>)
    ensures |r| == |e| && forall i :: 0 <= i < |e| ==> r[i] == e[i].0
  {
    seq(|e|, i requires 0 <= i < |e| => e[i].0)
  }

  lemma {:induction false} TallySnocOld<K(!new)>(xs: seq<K>, x: K, j: nat)
    requires j < |Keys(xs)| && Keys(xs)[j] == x
    ensures Tally(xs + [x]) == Tally(xs)[j := (x, multiset(xs)[x] + 1)]
  {
    var ys := xs + [x];
    assert x in Keys(xs);
    KeysSnocOld(xs, x);
    assert multiset(ys) == multiset(xs) + multiset{x};
    var lhs := Tally(ys);
    var rhs := Tally(xs)[j := (x, multiset(xs)[x] + 1)];
    forall i | 0 <= i < |lhs| ensures lhs[i] == rhs[i] {
      var k := Keys(xs)[i];
      if i != j {
        assert k != x;
      }
    }
  }

  lemma {:induction false} KeysSnocNew<K(!new)>(xs: seq<K>, x: K)
    requires x !in xs
    ensures Keys(xs + [x]) == Keys(xs) + [x]
  {
    var ys := xs + [x];
    assert ys[..|ys| - 1] == xs;
  }

  lemma {:induction false} KeysSnocOld<K(!new)>(xs: seq<K>, x: K)
    requires x in xs
    ensures Keys(xs + [x]) == Keys(xs)
  {
    var ys := xs + [x];
    assert ys[..|ys| - 1] == xs;
  }

  lemma {:induction false} TallySnocNew<K(!new)>(xs: seq<K>, x: K)
    requires x !in xs
    ensures Tally(xs + [x]) == Tally(xs) + [(x, 1)]
  {
    assert (xs + [x])[..|xs|] == xs;
    assert multiset(xs + [x]) == multiset(xs) + multiset{x};
    assert multiset(xs)[x] == 0;
  }

  lemma {:induction false} SumCountsIncrement<K>(e: seq<(K, nat)>, j: nat, k: K)
    requires j < |e|
    ensures SumCounts(e[j := (k, e[j].1 + 1)]) == SumCounts(e) + 1
  {
    var e' := e[j := (k, e[j].1 + 1)];
    if j > 0 {
      assert e'[1..] == e[1..][j - 1 := (k, e[j].1 + 1)];
      SumCountsIncrement(e[1..], j - 1, k);
    } else {
      assert e'[1..] == e[1..];
    }
  }

  lemma {:induction false} SumCountsAppend<K>(e: seq<(K, nat)>, entry: (K, nat))
    ensures SumCounts(e + [entry]) == SumCounts(e) + entry.1
  {
    if e != [] {
      assert (e + [entry])[1..] == e[1..] + [entry];
      SumCountsAppend(e[1..], entry);
    }
  }

  /** The counts add up to the length of the list: every element is counted once. */
  lemma {:induction false} TallySum<K(!new)>(xs: seq<K>)
    ensures SumCounts(Tally(xs)) == |xs|
  {
    if xs != [] {
      var init := xs[..|xs| - 1];
      var x := xs[|xs| - 1];
      assert xs == init + [x];
      TallySum(init);
      if x in init {
        var j :| 0 <= j < |Keys(init)| && Keys(init)[j] == x;
        TallySnocOld(init, x, j);
        SumCountsIncrement(Tally(init), j, x);
      } else {
        TallySnocNew(init, x);
        SumCountsAppend(Tally(init), (x, 1));
      }
    }
  }

  /** One entry per distinct element, and every count is at least 1. */
  lemma {:induction false} TallyEntries<K(!new)>(xs: seq<K>)
    ensures forall i, j :: 0 <= i < j < |Tally(xs)| ==> Tally(xs)[i].0 != Tally(xs)[j].0
    ensures forall k :: k in xs <==> k in EntryKeys(Tally(xs))
    ensures forall i :: 0 <= i < |Tally(xs)| ==> Tally(xs)[i].1 >= 1
  {
    var t := Tally(xs);
    forall i | 0 <= i < |t| ensures t[i].1 >= 1 {
      assert Keys(xs)[i] in xs;
    }
    forall k ensures k in xs <==> k in EntryKeys(t) {
      if k in xs {
        var i :| 0 <= i < |Keys(xs)| && Keys(xs)[i] == k;
        assert EntryKeys(t)[i] == k;
      }
    }
  }

  /** The imperative counting loop: a dictionary filled one element at a time. */
  method CountKeys<K(==,!new)>(xs: seq<K>) returns (entries: seq<(K, nat)>)
    ensures entries == Tally(xs)
  {
    entries := [];
    var i := 0;
    while i < |xs|
      invariant 0 <= i <= |xs|
      invariant entries == Tally(xs[..i])
    {
      var x := xs[i];
      var j := 0;
      while j < |entries| && entries[j].0 != x
        invariant 0 <= j <= |entries|
        invariant forall m :: 0 <= m < j ==> entries[m].0 != x
      {
        j := j + 1;
      }
      assert xs[..i + 1] == xs[..i] + [x];
      if j < |entries| {
        TallySnocOld(xs[..i], x, j);
        entries := entries[j := (x, entries[j].1 + 1)];
      } else {
        TallySnocNew(xs[..i], x);
        entries := entries + [(x, 1)];
      }
      i := i + 1;
    }
    assert xs[..|xs|] == xs;
  }
}
