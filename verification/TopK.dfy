/** The streaming top-K loop of poc/vector_search/main.go. */
module TopK {
  import opened Sequences

  datatype Item = Item(id: int, score: real)

  /** Every discarded item scores at most as high as every kept one. */
  ghost predicate Dominates(kept: seq<Item>, discarded: seq<Item>) {
    forall d, r | d in discarded && r in kept :: d.score <= r.score
  }

  /** The position of a lowest score; scanning replaces it only by a strictly lower one. */
  method LowestIndex(results: seq<Item>) returns (minIdx: nat)
    requires results != []
    ensures minIdx < |results|
    ensures forall i :: 0 <= i < |results| ==> results[minIdx].score <= results[i].score
    ensures forall i :: 0 <= i < minIdx ==> results[minIdx].score < results[i].score
  {
    minIdx := 0;
    for i := 1 to |results|
      invariant minIdx < |results|
      invariant forall j :: 0 <= j < i ==> results[minIdx].score <= results[j].score
      invariant forall j :: 0 <= j < minIdx ==> results[minIdx].score < results[j].score
    {
      if results[i].score < results[minIdx].score {
        minIdx := i;
      }
    }
  }

  /** After any stream, the kept items are k best ones, and nothing is lost or duplicated. */
  method KeepBest(rows: seq<Item>, k: nat) returns (results: seq<Item>, ghost discarded: seq<Item>)
    requires k > 0
    ensures |results| == Min(|rows|, k)
    ensures multiset(results) + multiset(discarded) == multiset(rows)
    ensures Dominates(results, discarded)
    ensures forall threshold :: CountAbove(results, threshold) == Min(k, CountAbove(rows, threshold))
  {
    results, discarded := [], [];
    for n := 0 to |rows|
      invariant |results| == Min(n, k)
      invariant Splits(results, discarded, rows[..n])
      invariant |results| < k ==> discarded == []
    {
      assert rows[..n + 1] == rows[..n] + [rows[n]];
      results, discarded := Consider(results, discarded, rows[..n], rows[n], k);
    }
    assert rows[..|rows|] == rows;
    KeptAreBestAbove(results, discarded, rows, k);
  }

  /** One item of the stream. */
  method Consider(kept: seq<Item>, ghost before: seq<Item>, ghost seen: seq<Item>, item: Item, k: nat)
    returns (results: seq<Item>, ghost discarded: seq<Item>)
    requires k > 0 && Splits(kept, before, seen)
    requires |kept| <= k && (|kept| < k ==> before == [])
    ensures Splits(results, discarded, seen + [item])
    ensures |results| == if |kept| < k then |kept| + 1 else k
    ensures |results| < k ==> discarded == []
  {
    results, discarded := kept, before;
    if |results| < k {
      KeepSplits(kept, seen, item);
      results := results + [item];
    } else {
      var minIdx := LowestIndex(results);
      if item.score > results[minIdx].score {
        ReplaceSplits(kept, before, seen, item, minIdx);
        discarded := discarded + [results[minIdx]];
        results := results[minIdx := item];
      } else {
        DiscardSplits(kept, before, seen, item, minIdx);
        discarded := discarded + [item];
      }
    }
  }

  lemma KeptAreBestAbove(kept: seq<Item>, discarded: seq<Item>, rows: seq<Item>, k: nat)
    requires Splits(kept, discarded, rows) && |kept| == Min(|rows|, k)
    ensures forall threshold :: CountAbove(kept, threshold) == Min(k, CountAbove(rows, threshold))
  {
    forall threshold ensures CountAbove(kept, threshold) == Min(k, CountAbove(rows, threshold)) {
      KeptAreBest(kept, discarded, rows, k, threshold);
    }
  }

  /** Kept and discarded together are what was seen, and the kept ones are the better ones. */
  ghost predicate Splits(kept: seq<Item>, discarded: seq<Item>, seen: seq<Item>) {
    multiset(kept) + multiset(discarded) == multiset(seen) && Dominates(kept, discarded)
  }

  lemma KeepSplits(kept: seq<Item>, seen: seq<Item>, item: Item)
    requires Splits(kept, [], seen)
    ensures Splits(kept + [item], [], seen + [item])
  {
  }

  lemma ReplaceSplits(kept: seq<Item>, discarded: seq<Item>, seen: seq<Item>, item: Item, i: nat)
    requires Splits(kept, discarded, seen) && i < |kept| && item.score > kept[i].score
    requires forall j :: 0 <= j < |kept| ==> kept[i].score <= kept[j].score
    ensures Splits(kept[i := item], discarded + [kept[i]], seen + [item])
  {
    ReplaceContents(kept, i, item);
    forall d, r | d in discarded + [kept[i]] && r in kept[i := item] ensures d.score <= r.score {
      assert kept[i] in kept;
    }
  }

  lemma DiscardSplits(kept: seq<Item>, discarded: seq<Item>, seen: seq<Item>, item: Item, i: nat)
    requires Splits(kept, discarded, seen) && i < |kept| && item.score <= kept[i].score
    requires forall j :: 0 <= j < |kept| ==> kept[i].score <= kept[j].score
    ensures Splits(kept, discarded + [item], seen + [item])
  {
  }

  /** Overwriting one place trades its item for the new one and brings nothing else in. */
  lemma ReplaceContents(results: seq<Item>, i: nat, item: Item)
    requires i < |results|
    ensures multiset(results[i := item]) == multiset(results) - multiset{results[i]} + multiset{item}
    ensures forall r | r in results[i := item] :: r in results || r == item
  {
    forall r | r in results[i := item] ensures r in results || r == item {
      var j :| 0 <= j < |results| && results[i := item][j] == r;
      assert j != i ==> results[j] == r;
    }
  }

  /** How many items score above a threshold. */
  function CountAbove(items: seq<Item>, threshold: real): (n: nat)
    ensures n <= |items|
  {
    if items == [] then 0
    else (if items[0].score > threshold then 1 else 0) + CountAbove(items[1..], threshold)
  }

  lemma {:induction false} CountAppend(a: seq<Item>, b: seq<Item>, threshold: real)
    ensures CountAbove(a + b, threshold) == CountAbove(a, threshold) + CountAbove(b, threshold)
  {
    if a == [] {
      assert a + b == b;
    } else {
      CountAppend(a[1..], b, threshold);
      assert (a + b)[0] == a[0] && (a + b)[1..] == a[1..] + b;
    }
  }

  /** Taking out one occurrence. */
  lemma CountWithout(b: seq<Item>, i: nat, threshold: real)
    requires i < |b|
    ensures multiset(b[..i] + b[i + 1..]) == multiset(b) - multiset{b[i]}
    ensures CountAbove(b, threshold) == CountAbove([b[i]], threshold) + CountAbove(b[..i] + b[i + 1..], threshold)
  {
    assert b == b[..i] + ([b[i]] + b[i + 1..]);
    CountAppend(b[..i], [b[i]] + b[i + 1..], threshold);
    CountAppend([b[i]], b[i + 1..], threshold);
    CountAppend(b[..i], b[i + 1..], threshold);
  }

  /** The count does not depend on the order. */
  lemma {:induction false} CountOfPermutation(a: seq<Item>, b: seq<Item>, threshold: real)
    requires multiset(a) == multiset(b)
    ensures CountAbove(a, threshold) == CountAbove(b, threshold)
    decreases |a|
  {
    if a == [] {
      assert |multiset(b)| == 0;
    } else {
      assert a[0] in multiset(b);
      var i :| 0 <= i < |b| && b[i] == a[0];
      var a', b' := a[..0] + a[1..], b[..i] + b[i + 1..];
      CountWithout(a, 0, threshold);
      CountWithout(b, i, threshold);
      assert multiset(a') == multiset(b');
      CountOfPermutation(a', b', threshold);
    }
  }

  lemma {:induction false} CountAll(items: seq<Item>, threshold: real)
    requires forall r | r in items :: r.score > threshold
    ensures CountAbove(items, threshold) == |items|
  {
    if items != [] {
      assert items[0] in items && forall r | r in items[1..] :: r in items;
      CountAll(items[1..], threshold);
    }
  }

  lemma {:induction false} CountNone(items: seq<Item>, threshold: real)
    requires forall r | r in items :: r.score <= threshold
    ensures CountAbove(items, threshold) == 0
  {
    if items != [] {
      assert items[0] in items && forall r | r in items[1..] :: r in items;
      CountNone(items[1..], threshold);
    }
  }

  /** Above every threshold the kept items number as many as there are, up to k of them. */
  lemma KeptAreBest(kept: seq<Item>, discarded: seq<Item>, rows: seq<Item>, k: nat, threshold: real)
    requires multiset(kept) + multiset(discarded) == multiset(rows)
    requires Dominates(kept, discarded) && |kept| == Min(|rows|, k)
    ensures CountAbove(kept, threshold) == Min(k, CountAbove(rows, threshold))
  {
    assert multiset(kept + discarded) == multiset(rows);
    CountOfPermutation(kept + discarded, rows, threshold);
    CountAppend(kept, discarded, threshold);
    assert |kept| + |discarded| == |rows| by {
      assert |multiset(kept + discarded)| == |multiset(rows)|;
    }
    if forall r | r in kept :: r.score > threshold {
      CountAll(kept, threshold);
    } else {
      CountNone(discarded, threshold);
    }
  }
}
