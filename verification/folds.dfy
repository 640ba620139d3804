/** Cross-validation fold partitioning of l1l2py/tools.py: chunk boundaries,
    the train/test folds cut from a shuffled index list, and the plain and
    stratified k-fold entry points. The random shuffle is an input: the model
    receives the list that random.shuffle produced. */
module Folds {
  import opened Common

  /** Python's round() on an exact half: Python 3 rounds to the even
      neighbour, Python 2 away from zero. The module runs under both. */
  datatype TieRule = HalfToEven | HalfAwayFromZero

  /** b * q grows by at least q - 1 + b - 1 over q when both factors are positive. */
  lemma {:induction false} ProductBound(b: nat, q: nat)
    requires b >= 1
    ensures b * q >= q
    ensures q >= 1 ==> b * q >= q + b - 1
  {
    if b > 1 {
      ProductBound(b - 1, q);
      assert b * q == (b - 1) * q + q;
    }
  }

  /** The facts about a / b and a % b that the rounding argument needs. */
  lemma DivisionFacts(a: nat, b: nat)
    requires b > 0
    ensures a == b * (a / b) + a % b && 0 <= a % b < b
    ensures b * (a / b + 1) == b * (a / b) + b
    ensures b * (a / b) >= a / b
    ensures a / b >= 1 ==> b * (a / b) >= a / b + b - 1
    ensures a / b == 0 ==> b * (a / b) == 0
  {
    ProductBound(b, a / b);
  }

  /** The rounding argument with the products q * b and r * b named p
      and br, so that it is linear. */
  lemma RoundingArithmetic(a: nat, b: nat, q: nat, rem: nat, p: nat, up: bool, r: nat, br: nat, tie: TieRule)
    requires b > 0 && a == p + rem && rem < b && p >= q && (q >= 1 ==> p >= q + b - 1)
    requires q == 0 ==> p == 0
    requires up == (2 * rem > b || (2 * rem == b && (tie == HalfAwayFromZero || q % 2 == 1)))
    requires r == (if up then q + 1 else q) && br == (if up then p + b else p)
    ensures 2 * a <= 2 * br + b && 2 * br <= 2 * a + b
    ensures 2 * br == 2 * a + b || 2 * br + b == 2 * a ==>
              (tie == HalfToEven ==> r % 2 == 0) && (tie == HalfAwayFromZero ==> br > a)
    ensures r <= a
    ensures a >= b ==> 1 <= r && r + b - 1 <= a
  {
  }

  /** Whether round() of a / b goes above the quotient q, whose remainder is rem. */
  predicate RoundsUp(b: nat, q: nat, rem: nat, tie: TieRule)
  {
    2 * rem > b || (2 * rem == b && (tie == HalfAwayFromZero || q % 2 == 1))
  }

  /** The bounds of the rounded quotient. */
  lemma RoundedQuotientBounds(a: nat, b: nat, tie: TieRule)
    requires b > 0
    ensures var q, rem := a / b, a % b;
      var r := if RoundsUp(b, q, rem, tie) then q + 1 else q;
      r <= a && (a >= b ==> 1 <= r && r + b - 1 <= a)
  {
    var q, rem := a / b, a % b;
    var up := RoundsUp(b, q, rem, tie);
    DivisionFacts(a, b);
    RoundingArithmetic(a, b, q, rem, b * q, up, if up then q + 1 else q, if up then b * q + b else b * q, tie);
  }

  /** int(round(a / b)) computed exactly on rationals. */
  function RoundRatio(a: nat, b: nat, tie: TieRule): (r: nat)
    requires b > 0
    ensures r <= a
    // with at least one item per split left, a chunk is never empty and
    // never takes so many items that a later split would be empty
    ensures a >= b ==> 1 <= r && r + b - 1 <= a
  {
    RoundedQuotientBounds(a, b, tie);
    var q, rem := a / b, a % b;
    if RoundsUp(b, q, rem, tie) then q + 1 else q
  }

  /** RoundRatio is Python's round of the exact ratio: an integer nearest to
      a / b, and on an exact half the one the tie rule picks. */
  lemma RoundRatioNearest(a: nat, b: nat, tie: TieRule)
    requires b > 0
    ensures var r := RoundRatio(a, b, tie);
      && 2 * a <= 2 * (b * r) + b && 2 * (b * r) <= 2 * a + b
      && (2 * (b * r) == 2 * a + b || 2 * (b * r) + b == 2 * a ==>
            (tie == HalfToEven ==> r % 2 == 0) && (tie == HalfAwayFromZero ==> b * r > a))
  {
    var q, rem := a / b, a % b;
    var up := RoundsUp(b, q, rem, tie);
    var r := RoundRatio(a, b, tie);
    assert r == if up then q + 1 else q;
    DivisionFacts(a, b);
    RoundedProduct(b, q, up);
    RoundingArithmetic(a, b, q, rem, b * q, up, r, b * r, tie);
  }

  /** b times the rounded quotient, in terms of b * q. */
  lemma RoundedProduct(b: nat, q: nat, up: bool)
    ensures b * (if up then q + 1 else q) == if up then b * q + b else b * q
  {
    if up {
      assert b * (q + 1) == b * q + b;
    }
  }

  /** Rounding a ratio over one split leaves it unchanged. */
  lemma RoundRatioByOne(a: nat, tie: TieRule)
    ensures RoundRatio(a, 1, tie) == a
  {
    assert a / 1 == a && a % 1 == 0;
  }

  /** Rounding an even number over two splits gives its half. */
  lemma RoundRatioHalf(a: nat, tie: TieRule)
    requires a % 2 == 0
    ensures RoundRatio(a, 2, tie) == a / 2
  {
    assert a / 2 * 2 == a && a % 2 == 0;
  }

  /** Every chunk of d lies inside [lo, hi] and starts no later than it ends. */
  predicate WithinBounds(d: seq<(nat, nat)>, lo: nat, hi: nat)
  {
    forall i :: 0 <= i < |d| ==> lo <= d[i].0 <= d[i].1 <= hi
  }

  /** Each chunk of d ends where the next one starts. */
  predicate Contiguous(d: seq<(nat, nat)>)
  {
    forall i, j :: 0 <= i && j == i + 1 < |d| ==> d[i].1 == d[j].0
  }

  /** No chunk of d is empty. */
  predicate NonEmptyChunks(d: seq<(nat, nat)>)
  {
    forall i :: 0 <= i < |d| ==> d[i].0 < d[i].1
  }

  /** The sum of a list of sizes. */
  function Total(sizes: seq<nat>): nat
  {
    if |sizes| == 0 then 0 else sizes[0] + Total(sizes[1..])
  }

  /** The chunk sizes that _split_dimensions cuts from remaining items in
      splits chunks: each time the rounded share of the items still left
      per split still left. They use up every item (the last share is
      round(x / 1) == x), and with at least one item per split none is 0. */
  function Sizes(remaining: nat, splits: nat, tie: TieRule): (s: seq<nat>)
    ensures |s| == splits
    ensures splits > 0 ==> Total(s) == remaining
    ensures remaining >= splits ==> forall i :: 0 <= i < |s| ==> s[i] >= 1
    decreases splits
  {
    if splits == 0 then []
    else
      var size := RoundRatio(remaining, splits, tie);
      RoundRatioByOne(remaining, tie);
      [size] + Sizes(remaining - size, splits - 1, tie)
  }

  /** Chunks of the given sizes laid end to end from start, as (start, end) pairs. */
  function Tile(start: nat, sizes: seq<nat>): (d: seq<(nat, nat)>)
    ensures |d| == |sizes|
    decreases |sizes|
  {
    if |sizes| == 0 then [] else [(start, start + sizes[0])] + Tile(start + sizes[0], sizes[1..])
  }

  /** The first tile starts at start and the last ends after all sizes. */
  lemma {:induction false} TileEnds(start: nat, sizes: seq<nat>)
    requires |sizes| > 0
    ensures var d := Tile(start, sizes);
      d[0].0 == start && d[|d| - 1].1 == start + Total(sizes)
    decreases |sizes|
  {
    if |sizes| > 1 {
      var d, rest := Tile(start, sizes), Tile(start + sizes[0], sizes[1..]);
      TileEnds(start + sizes[0], sizes[1..]);
      assert d[|d| - 1] == rest[|rest| - 1];
    }
  }

  lemma {:induction false} TileContiguous(start: nat, sizes: seq<nat>)
    ensures Contiguous(Tile(start, sizes))
    decreases |sizes|
  {
    if |sizes| > 0 {
      var d, rest := Tile(start, sizes), Tile(start + sizes[0], sizes[1..]);
      TileContiguous(start + sizes[0], sizes[1..]);
      if |sizes| > 1 {
        TileEnds(start + sizes[0], sizes[1..]);
      }
      forall i, j | 0 <= i && j == i + 1 < |d| ensures d[i].1 == d[j].0 {
        if i > 0 {
          assert d[i] == rest[i - 1] && d[j] == rest[j - 1];
        }
      }
    }
  }

  lemma {:induction false} TileNonEmpty(start: nat, sizes: seq<nat>)
    requires forall i :: 0 <= i < |sizes| ==> sizes[i] >= 1
    ensures NonEmptyChunks(Tile(start, sizes))
    decreases |sizes|
  {
    if |sizes| > 0 {
      var d, rest := Tile(start, sizes), Tile(start + sizes[0], sizes[1..]);
      TileNonEmpty(start + sizes[0], sizes[1..]);
      forall i | 0 <= i < |d| ensures d[i].0 < d[i].1 {
        if i > 0 {
          assert d[i] == rest[i - 1];
        }
      }
    }
  }

  lemma {:induction false} TileWithinBounds(start: nat, sizes: seq<nat>)
    ensures WithinBounds(Tile(start, sizes), start, start + Total(sizes))
    decreases |sizes|
  {
    if |sizes| > 0 {
      var d, rest := Tile(start, sizes), Tile(start + sizes[0], sizes[1..]);
      TileWithinBounds(start + sizes[0], sizes[1..]);
      forall i | 0 <= i < |d| ensures start <= d[i].0 <= d[i].1 <= start + Total(sizes) {
        if i > 0 {
          assert d[i] == rest[i - 1];
        }
      }
    }
  }

  /** The (start, end) pairs that _split_dimensions yields once start items
      are placed and remaining items are left for splits chunks. */
  function Chunks(start: nat, remaining: nat, splits: nat, tie: TieRule): seq<(nat, nat)>
  {
    Tile(start, Sizes(remaining, splits, tie))
  }

  /** Chunks with at least one split: the first chunk, then the rest. */
  lemma ChunksCons(start: nat, remaining: nat, splits: nat, tie: TieRule)
    requires splits > 0
    ensures var size := RoundRatio(remaining, splits, tie);
      Chunks(start, remaining, splits, tie)
        == [(start, start + size)] + Chunks(start + size, remaining - size, splits - 1, tie)
  {
    var size := RoundRatio(remaining, splits, tie);
    var sizes := Sizes(remaining, splits, tie);
    assert sizes[1..] == Sizes(remaining - size, splits - 1, tie);
  }

  /** One step of the _split_dimensions loop: the chunks still to come are
      the next chunk followed by the chunks after it. */
  lemma ChunksStep(dims: seq<(nat, nat)>, start: nat, remaining: nat, splits: nat,
                   dims': seq<(nat, nat)>, start': nat, remaining': nat, tie: TieRule)
    requires splits > 0
    requires start' == start + RoundRatio(remaining, splits, tie)
    requires remaining' == remaining - RoundRatio(remaining, splits, tie)
    requires dims' == dims + [(start, start')]
    ensures dims' + Chunks(start', remaining', splits - 1, tie) == dims + Chunks(start, remaining, splits, tie)
  {
    ChunksCons(start, remaining, splits, tie);
    assert dims + Chunks(start, remaining, splits, tie) == (dims + [(start, start')]) + Chunks(start', remaining', splits - 1, tie);
  }

  /** Once no splits remain, no chunks remain. */
  lemma ChunksStop(dims: seq<(nat, nat)>, start: nat, remaining: nat, tie: TieRule)
    ensures dims + Chunks(start, remaining, 0, tie) == dims
  {
    assert Chunks(start, remaining, 0, tie) == [];
  }

  /** The chunks tile [start, start + remaining] without gaps: they lie
      inside it, the first starts at start, each ends where the next
      starts, the last ends at start + remaining, and with at least one
      item per split none is empty. */
  lemma ChunksTile(start: nat, remaining: nat, splits: nat, tie: TieRule)
    ensures var d := Chunks(start, remaining, splits, tie);
      && |d| == splits
      && WithinBounds(d, start, start + remaining)
      && (splits > 0 ==> d[0].0 == start && d[splits - 1].1 == start + remaining)
      && Contiguous(d)
      && (remaining >= splits ==> NonEmptyChunks(d))
  {
    var sizes := Sizes(remaining, splits, tie);
    TileWithinBounds(start, sizes);
    if splits > 0 {
      TileEnds(start, sizes);
    }
    TileContiguous(start, sizes);
    if remaining >= splits {
      TileNonEmpty(start, sizes);
    }
  }

  /** The chunk boundaries for numItems items in numSplits chunks. */
  function Dimensions(numItems: nat, numSplits: nat, tie: TieRule): (d: seq<(nat, nat)>)
    ensures |d| == numSplits && WithinBounds(d, 0, numItems)
  {
    ChunksTile(0, numItems, numSplits, tie);
    Chunks(0, numItems, numSplits, tie)
  }

  /** The chunk boundaries start at 0, end at numItems, leave no gaps, and
      with at least one item per split are all non-empty. */
  lemma DimensionsTile(numItems: nat, numSplits: nat, tie: TieRule)
    ensures var d := Dimensions(numItems, numSplits, tie);
      && (numSplits > 0 ==> d[0].0 == 0 && d[numSplits - 1].1 == numItems)
      && Contiguous(d)
      && (numItems >= numSplits ==> NonEmptyChunks(d))
  {
    ChunksTile(0, numItems, numSplits, tie);
  }

  /** _split_dimensions: the loop that walks remaining_splits down from
      numSplits to 1, cutting a rounded share of the remaining items each time. */
  method SplitDimensions(numItems: nat, numSplits: nat, tie: TieRule) returns (dims: seq<(nat, nat)>)
    ensures dims == Dimensions(numItems, numSplits, tie)
    ensures |dims| == numSplits
    ensures numSplits > 0 ==> dims[0].0 == 0 && dims[numSplits - 1].1 == numItems
    ensures Contiguous(dims)
  {
    dims := [];
    var start: nat := 0;
    var remainingItems: nat := numItems;
    var remainingSplits := numSplits;
    while remainingSplits > 0
      invariant start + remainingItems == numItems
      invariant dims + Chunks(start, remainingItems, remainingSplits, tie) == Dimensions(numItems, numSplits, tie)
    {
      var splitSize := RoundRatio(remainingItems, remainingSplits, tie);
      var end := start + splitSize;
      ghost var dims0, start0, items0, splits0 := dims, start, remainingItems, remainingSplits;
      dims := dims + [(start, end)];
      start := end;
      remainingItems := remainingItems - splitSize;
      remainingSplits := remainingSplits - 1;
      ChunksStep(dims0, start0, items0, splits0, dims, start, remainingItems, tie);
    }
    ChunksStop(dims, start, remainingItems, tie);
    DimensionsTile(numItems, numSplits, tie);
  }

  /** One cross-validation fold: training indexes and test indexes. */
  datatype Fold = Fold(train: seq<nat>, test: seq<nat>)

  /** _splits: for each chunk, the test set is the chunk of indexes and the
      training set is everything before it followed by everything after it. */
  function Splits(indexes: seq<nat>, k: nat, tie: TieRule): (folds: seq<Fold>)
    ensures |folds| == k
  {
    var dims := Dimensions(|indexes|, k, tie);
    seq(k, i requires 0 <= i < k =>
      Fold(indexes[..dims[i].0] + indexes[dims[i].1..], indexes[dims[i].0..dims[i].1]))
  }

  /** The test sets of a fold list, concatenated in fold order. */
  function ConcatTests(folds: seq<Fold>): seq<nat>
  {
    if |folds| == 0 then [] else folds[0].test + ConcatTests(folds[1..])
  }

  /** Within every fold, training and test indexes together are exactly the
      input indexes (as a multiset), and a test set is empty only when there
      are fewer items than folds. */
  lemma SplitsCoverEachFold(indexes: seq<nat>, k: nat, tie: TieRule)
    ensures forall i :: 0 <= i < k ==>
              multiset(Splits(indexes, k, tie)[i].train) + multiset(Splits(indexes, k, tie)[i].test)
              == multiset(indexes)
    ensures k <= |indexes| ==> forall i :: 0 <= i < k ==> |Splits(indexes, k, tie)[i].test| > 0
  {
    var folds := Splits(indexes, k, tie);
    var dims := Dimensions(|indexes|, k, tie);
    DimensionsTile(|indexes|, k, tie);
    forall i | 0 <= i < k
      ensures multiset(folds[i].train) + multiset(folds[i].test) == multiset(indexes)
    {
      var s, e := dims[i].0, dims[i].1;
      assert indexes == indexes[..s] + indexes[s..e] + indexes[e..];
    }
  }

  lemma {:induction false} ConcatTestsFrom(indexes: seq<nat>, k: nat, tie: TieRule, i: nat)
    requires i < k
    ensures ConcatTests(Splits(indexes, k, tie)[i..]) == indexes[Dimensions(|indexes|, k, tie)[i].0..]
    decreases k - i
  {
    var folds := Splits(indexes, k, tie);
    var dims := Dimensions(|indexes|, k, tie);
    DimensionsTile(|indexes|, k, tie);
    if i == k - 1 {
      assert folds[i..][1..] == [];
      assert dims[i].1 == |indexes|;
    } else {
      ConcatTestsFrom(indexes, k, tie, i + 1);
      assert folds[i..][1..] == folds[i + 1..];
      assert dims[i].1 == dims[i + 1].0;
      assert indexes[dims[i].0..] == indexes[dims[i].0..dims[i].1] + indexes[dims[i + 1].0..];
    }
  }

  /** The test sets of all folds, in order, spell out the input list again:
      every index is tested in exactly one fold. */
  lemma SplitsTestsConcat(indexes: seq<nat>, k: nat, tie: TieRule)
    requires k >= 1
    ensures ConcatTests(Splits(indexes, k, tie)) == indexes
  {
    ConcatTestsFrom(indexes, k, tie, 0);
    assert Splits(indexes, k, tie)[0..] == Splits(indexes, k, tie);
  }

  /** kfold_splits: k outside [2, N] is a ValueError; otherwise the folds of
      the shuffled index list. shuffled is what random.shuffle made of range(N). */
  function KFoldSplits(labels: seq<real>, k: int, shuffled: seq<nat>, tie: TieRule): (r: Result<seq<Fold>>)
    requires IsPermutation(shuffled, |labels|)
    ensures r.Err? <==> !(2 <= k <= |labels|)
    ensures r.Err? ==> r.error == InvalidFoldCount
    ensures r.Ok? ==> |r.value| == k
  {
    if !(2 <= k <= |labels|) then Err(InvalidFoldCount)
    else Ok(Splits(shuffled, k, tie))
  }

  /** Two multisets that add up to one copy of 0..n-1 share no element, and
      together hold exactly the indices below n. */
  lemma SplitOfRange(a: seq<nat>, b: seq<nat>, n: nat)
    requires multiset(a) + multiset(b) == multiset(Range(n))
    ensures forall x :: x in a ==> x !in b
    ensures forall x: nat :: x < n <==> x in a || x in b
  {
    forall x | x in a ensures x !in b {
      RangeCount(n, x);
      assert multiset(a)[x] >= 1;
    }
    forall x: nat ensures x < n <==> x in a || x in b {
      RangeCount(n, x);
      assert x in a <==> multiset(a)[x] > 0;
      assert x in b <==> multiset(b)[x] > 0;
    }
  }

  /** The k-fold partition property: in each fold training and test indexes
      are disjoint and together are 0..N-1; every test set is non-empty; and
      over all folds each index is tested exactly once. */
  lemma KFoldPartition(labels: seq<real>, k: int, shuffled: seq<nat>, tie: TieRule)
    requires IsPermutation(shuffled, |labels|)
    requires KFoldSplits(labels, k, shuffled, tie).Ok?
    ensures var folds := KFoldSplits(labels, k, shuffled, tie).value;
      && (forall i :: 0 <= i < |folds| ==>
            multiset(folds[i].train) + multiset(folds[i].test) == multiset(Range(|labels|)))
      && (forall i, x :: 0 <= i < |folds| && x in folds[i].train ==> x !in folds[i].test)
      && (forall i :: 0 <= i < |folds| ==> |folds[i].test| > 0)
      && multiset(ConcatTests(folds)) == multiset(Range(|labels|))
  {
    var folds := KFoldSplits(labels, k, shuffled, tie).value;
    SplitsCoverEachFold(shuffled, k, tie);
    SplitsTestsConcat(shuffled, k, tie);
    forall i | 0 <= i < |folds|
      ensures forall x :: x in folds[i].train ==> x !in folds[i].test
    {
      SplitOfRange(folds[i].train, folds[i].test, |labels|);
    }
  }

  /** Two splits of an even number of items take half each. */
  lemma TwoEvenSizes(n: nat, tie: TieRule)
    requires n % 2 == 0
    ensures Sizes(n, 2, tie) == [n / 2, n / 2]
  {
    var h := n / 2;
    RoundRatioHalf(n, tie);
    RoundRatioByOne(h, tie);
    assert Sizes(h, 1, tie) == [h] + Sizes(0, 0, tie);
    assert Sizes(n, 2, tie) == [h] + Sizes(h, 1, tie);
  }

  /** Two chunks of size h laid from start. */
  lemma TileTwo(start: nat, h: nat)
    ensures Tile(start, [h, h]) == [(start, start + h), (start + h, start + h + h)]
  {
    assert [h, h][1..] == [h] && [h][1..] == [];
    assert Tile(start + h, [h]) == [(start + h, start + h + h)] + Tile(start + h + h, []);
  }

  /** Two chunks of an even number of items are its two halves. */
  lemma TwoEvenDimensions(n: nat, tie: TieRule)
    requires n % 2 == 0
    ensures Dimensions(n, 2, tie) == [(0, n / 2), (n / 2, n)]
  {
    TwoEvenSizes(n, tie);
    TileTwo(0, n / 2);
  }

  /** An even number of indexes in two folds: each half is once the test set. */
  lemma TwoFoldsOfEven(s: seq<nat>, tie: TieRule)
    requires |s| % 2 == 0
    ensures var h := |s| / 2;
      Splits(s, 2, tie) == [Fold(s[h..], s[..h]), Fold(s[..h], s[h..])]
  {
    var n, h := |s|, |s| / 2;
    TwoEvenDimensions(n, tie);
    var f := Splits(s, 2, tie);
    assert s[..0] + s[h..] == s[h..];
    assert s[..h] + s[n..] == s[..h];
    assert f[0] == Fold(s[h..], s[..h]);
    assert f[1] == Fold(s[..h], s[h..]);
  }

  /** kfold_splits with k = 2 on an even number of labels: the two halves
      of the shuffled indexes, each once the test set. */
  lemma KFoldTwoFolds(labels: seq<real>, shuffled: seq<nat>, tie: TieRule)
    requires IsPermutation(shuffled, |labels|) && |labels| >= 2 && |labels| % 2 == 0
    ensures var h := |shuffled| / 2;
      KFoldSplits(labels, 2, shuffled, tie)
        == Ok([Fold(shuffled[h..], shuffled[..h]), Fold(shuffled[..h], shuffled[h..])])
  {
    assert |multiset(shuffled)| == |multiset(Range(|labels|))|;
    TwoFoldsOfEven(shuffled, tie);
  }

  /** The shuffled order of range(10) that the documented folds imply is a
      permutation. */
  lemma DocShuffleIsPermutation(shuffled: seq<nat>)
    requires shuffled == [9, 4, 0, 5, 2, 7, 1, 3, 6, 8]
    ensures IsPermutation(shuffled, 10)
  {
    PermutationFromDistinct(shuffled, 10);
  }

  /** The documented example: range(10) in two folds. With the shuffled
      order the documented folds imply, the folds are exactly the
      documented ones, whichever rounding rule applies; one fold is refused. */
  lemma KFoldDocExample(labels: seq<real>, shuffled: seq<nat>, tie: TieRule)
    requires |labels| == 10 && shuffled == [9, 4, 0, 5, 2, 7, 1, 3, 6, 8]
    ensures IsPermutation(shuffled, 10)
    ensures KFoldSplits(labels, 2, shuffled, tie)
         == Ok([Fold([7, 1, 3, 6, 8], [9, 4, 0, 5, 2]), Fold([9, 4, 0, 5, 2], [7, 1, 3, 6, 8])])
    ensures KFoldSplits(labels, 1, shuffled, tie) == Err(InvalidFoldCount)
  {
    assert shuffled[..5] == [9, 4, 0, 5, 2];
    assert shuffled[5..] == [7, 1, 3, 6, 8];
    DocShuffleIsPermutation(shuffled);
    KFoldTwoFolds(labels, shuffled, tie);
  }

  /** The first label different from v, if any. */
  function FirstOther(labels: seq<real>, v: real): (r: Option<real>)
    ensures r.None? ==> forall i :: 0 <= i < |labels| ==> labels[i] == v
    ensures r.Some? ==> r.value != v && r.value in labels
  {
    if |labels| == 0 then None
    else if labels[0] != v then Some(labels[0])
    else FirstOther(labels[1..], v)
  }

  /** labels holds exactly the two distinct values lo < hi. */
  predicate HasExactlyClasses(labels: seq<real>, lo: real, hi: real)
  {
    lo < hi && lo in labels && hi in labels &&
    forall i :: 0 <= i < |labels| ==> labels[i] == lo || labels[i] == hi
  }

  /** np.unique(labels) when it has exactly two entries (sorted), else None. */
  function Classes(labels: seq<real>): (r: Option<(real, real)>)
    ensures r.Some? ==> HasExactlyClasses(labels, r.value.0, r.value.1)
    ensures r.None? ==> forall lo, hi :: !HasExactlyClasses(labels, lo, hi)
  {
    if |labels| == 0 then None
    else
      var a := labels[0];
      match FirstOther(labels, a)
      case None => None
      case Some(b) =>
        if forall i | 0 <= i < |labels| :: labels[i] == a || labels[i] == b then
          (if a < b then Some((a, b)) else Some((b, a)))
        else None
  }

  /** np.where(labels == c)[0]: the positions holding c, in increasing order. */
  function Positions(labels: seq<real>, c: real): (r: seq<nat>)
    ensures forall i :: 0 <= i < |r| ==> r[i] < |labels| && labels[r[i]] == c
  {
    if |labels| == 0 then []
    else Positions(labels[..|labels| - 1], c) + (if labels[|labels| - 1] == c then [|labels| - 1] else [])
  }

  /** np.where lists the positions in increasing order and misses none of
      those that hold c. */
  lemma {:induction false} PositionsExact(labels: seq<real>, c: real)
    ensures var r := Positions(labels, c);
      && (forall i, j :: 0 <= i < j < |r| ==> r[i] < r[j])
      && (forall i :: 0 <= i < |labels| && labels[i] == c ==> i in r)
  {
    if |labels| > 0 {
      var n := |labels| - 1;
      var init := Positions(labels[..n], c);
      PositionsExact(labels[..n], c);
      assert forall i :: 0 <= i < |init| ==> init[i] < n;
      forall i | 0 <= i < n && labels[i] == c ensures i in init {
        assert labels[..n][i] == labels[i];
      }
    }
  }

  /** With two distinct labels covering every entry, the two position lists
      together hold each index 0..N-1 exactly once. */
  lemma {:induction false} PositionsCover(labels: seq<real>, lo: real, hi: real)
    requires lo != hi
    requires forall i :: 0 <= i < |labels| ==> labels[i] == lo || labels[i] == hi
    ensures multiset(Positions(labels, lo)) + multiset(Positions(labels, hi)) == multiset(Range(|labels|))
  {
    if |labels| > 0 {
      var n := |labels|;
      var init := labels[..n - 1];
      PositionsCover(init, lo, hi);
      assert Range(n) == Range(n - 1) + [n - 1];
      if labels[n - 1] == lo {
        assert Positions(labels, lo) == Positions(init, lo) + [n - 1];
        assert Positions(labels, hi) == Positions(init, hi) + [];
      } else {
        assert Positions(labels, lo) == Positions(init, lo) + [];
        assert Positions(labels, hi) == Positions(init, hi) + [n - 1];
      }
    }
  }

  /** What random.shuffle may have produced: a reordering of each class's
      position list (there is nothing to shuffle without two classes). */
  predicate ShuffleFits(labels: seq<real>, negShuffled: seq<nat>, posShuffled: seq<nat>)
  {
    match Classes(labels)
    case None => true
    case Some(c) =>
      multiset(negShuffled) == multiset(Positions(labels, c.0)) &&
      multiset(posShuffled) == multiset(Positions(labels, c.1))
  }

  /** A shuffled class list is as long as the class. */
  lemma ShuffledLengths(labels: seq<real>, negShuffled: seq<nat>, posShuffled: seq<nat>)
    requires ShuffleFits(labels, negShuffled, posShuffled)
    requires Classes(labels).Some?
    ensures |negShuffled| == |Positions(labels, Classes(labels).value.0)|
    ensures |posShuffled| == |Positions(labels, Classes(labels).value.1)|
  {
    var c := Classes(labels).value;
    assert |multiset(negShuffled)| == |multiset(Positions(labels, c.0))|;
    assert |multiset(posShuffled)| == |multiset(Positions(labels, c.1))|;
  }

  /** zip(n_splits, p_splits) recombined: each fold's training and test sets
      are the negative class's followed by the positive class's. */
  function Stratify(ns: seq<Fold>, ps: seq<Fold>): (folds: seq<Fold>)
    ensures |folds| == Min(|ns|, |ps|)
  {
    seq(Min(|ns|, |ps|), i requires 0 <= i < Min(|ns|, |ps|) =>
      Fold(ns[i].train + ps[i].train, ns[i].test + ps[i].test))
  }

  /** stratified_kfold_splits: labels must hold exactly two values and k must
      lie in [2, min(#negatives, #positives)]; then the per-class folds of
      the shuffled class positions are recombined fold by fold. */
  method StratifiedKFoldSplits(labels: seq<real>, k: int, negShuffled: seq<nat>, posShuffled: seq<nat>,
                               tie: TieRule) returns (r: Result<seq<Fold>>)
    requires ShuffleFits(labels, negShuffled, posShuffled)
    ensures Classes(labels).None? ==> r == Err(NotTwoClasses)
    ensures Classes(labels).Some? ==>
              var c := Classes(labels).value;
              var bound := Min(|Positions(labels, c.0)|, |Positions(labels, c.1)|);
              if 2 <= k <= bound then r.Ok? && |r.value| == k
              else r == Err(InvalidStratifiedFoldCount)
    ensures r.Ok? ==> k >= 0 && r.value == Stratify(Splits(negShuffled, k, tie), Splits(posShuffled, k, tie))
  {
    var classes := Classes(labels);
    if classes.None? {
      return Err(NotTwoClasses);
    }
    var nIndexes := Positions(labels, classes.value.0);
    var pIndexes := Positions(labels, classes.value.1);
    if !(2 <= k <= Min(|nIndexes|, |pIndexes|)) {
      return Err(InvalidStratifiedFoldCount);
    }
    ShuffledLengths(labels, negShuffled, posShuffled);
    var splits := ZipFolds(Splits(negShuffled, k, tie), Splits(posShuffled, k, tie));
    r := Ok(splits);
  }

  /** The recombination loop of stratified_kfold_splits: fold i joins the
      i-th negative fold's sets with the i-th positive fold's. */
  method ZipFolds(ns: seq<Fold>, ps: seq<Fold>) returns (splits: seq<Fold>)
    requires |ns| == |ps|
    ensures splits == Stratify(ns, ps)
  {
    splits := [];
    var i := 0;
    while i < |ns|
      invariant 0 <= i <= |ns|
      invariant |splits| == i
      invariant forall j :: 0 <= j < i ==>
                  splits[j] == Fold(ns[j].train + ps[j].train, ns[j].test + ps[j].test)
    {
      var train := ns[i].train + ps[i].train;
      var test := ns[i].test + ps[i].test;
      splits := splits + [Fold(train, test)];
      i := i + 1;
    }
  }

  lemma {:induction false} StratifyConcatTests(ns: seq<Fold>, ps: seq<Fold>)
    requires |ns| == |ps|
    ensures multiset(ConcatTests(Stratify(ns, ps))) == multiset(ConcatTests(ns)) + multiset(ConcatTests(ps))
  {
    if |ns| > 0 {
      StratifyConcatTests(ns[1..], ps[1..]);
      assert Stratify(ns, ps)[1..] == Stratify(ns[1..], ps[1..]);
    }
  }

  /** The stratified partition property, fold by fold: in each fold
      training and test indexes are disjoint and together are 0..N-1. */
  lemma StratifiedFoldsPartition(labels: seq<real>, k: nat, negShuffled: seq<nat>, posShuffled: seq<nat>,
                                 tie: TieRule)
    requires ShuffleFits(labels, negShuffled, posShuffled)
    requires Classes(labels).Some?
    requires 2 <= k <= Min(|negShuffled|, |posShuffled|)
    ensures var folds := Stratify(Splits(negShuffled, k, tie), Splits(posShuffled, k, tie));
      && |folds| == k
      && (forall i :: 0 <= i < k ==>
            multiset(folds[i].train) + multiset(folds[i].test) == multiset(Range(|labels|)))
      && (forall i, x :: 0 <= i < k && x in folds[i].train ==> x !in folds[i].test)
  {
    var c := Classes(labels).value;
    PositionsCover(labels, c.0, c.1);
    var ns, ps := Splits(negShuffled, k, tie), Splits(posShuffled, k, tie);
    var folds := Stratify(ns, ps);
    SplitsCoverEachFold(negShuffled, k, tie);
    SplitsCoverEachFold(posShuffled, k, tie);
    forall i | 0 <= i < k
      ensures multiset(folds[i].train) + multiset(folds[i].test) == multiset(Range(|labels|))
      ensures forall x :: x in folds[i].train ==> x !in folds[i].test
    {
      MergedFoldPartition(ns[i], ps[i], multiset(negShuffled), multiset(posShuffled), |labels|);
    }
  }

  /** Joining a fold of one class with a fold of the other, where the two
      classes together are 0..N-1, gives a fold that partitions 0..N-1. */
  lemma MergedFoldPartition(n: Fold, p: Fold, negative: multiset<nat>, positive: multiset<nat>, size: nat)
    requires multiset(n.train) + multiset(n.test) == negative
    requires multiset(p.train) + multiset(p.test) == positive
    requires negative + positive == multiset(Range(size))
    ensures multiset(n.train + p.train) + multiset(n.test + p.test) == multiset(Range(size))
    ensures forall x :: x in n.train + p.train ==> x !in n.test + p.test
  {
    var train, test := n.train + p.train, n.test + p.test;
    assert multiset(train) + multiset(test)
        == (multiset(n.train) + multiset(n.test)) + (multiset(p.train) + multiset(p.test));
    SplitOfRange(train, test, size);
  }

  /** The stratified partition property across folds: each index 0..N-1 is
      tested in exactly one fold. */
  lemma StratifiedTestsPartition(labels: seq<real>, k: nat, negShuffled: seq<nat>, posShuffled: seq<nat>,
                                 tie: TieRule)
    requires ShuffleFits(labels, negShuffled, posShuffled)
    requires Classes(labels).Some?
    requires 2 <= k <= Min(|negShuffled|, |posShuffled|)
    ensures multiset(ConcatTests(Stratify(Splits(negShuffled, k, tie), Splits(posShuffled, k, tie))))
            == multiset(Range(|labels|))
  {
    var c := Classes(labels).value;
    PositionsCover(labels, c.0, c.1);
    var ns, ps := Splits(negShuffled, k, tie), Splits(posShuffled, k, tie);
    SplitsTestsConcat(negShuffled, k, tie);
    SplitsTestsConcat(posShuffled, k, tie);
    StratifyConcatTests(ns, ps);
  }

  /** The documented rejection: range(10) does not hold two classes. */
  lemma StratifiedRangeRejected(labels: seq<real>)
    requires labels == [0.0, 1.0, 2.0, 3.0, 4.0, 5.0, 6.0, 7.0, 8.0, 9.0]
    ensures Classes(labels).None?
  {
    assert FirstOther(labels, 0.0) == Some(1.0);
    assert !(labels[2] == 0.0 || labels[2] == 1.0);
  }

  /** Appending labels none of which is c leaves the positions of c as
      they were; appending only c's adds their positions, in order. */
  lemma {:induction false} PositionsAppend(a: seq<real>, b: seq<real>, c: real)
    ensures (forall i :: 0 <= i < |b| ==> b[i] != c) ==> Positions(a + b, c) == Positions(a, c)
    ensures (forall i :: 0 <= i < |b| ==> b[i] == c) ==>
              Positions(a + b, c) == Positions(a, c) + seq(|b|, i => |a| + i)
  {
    if |b| > 0 {
      var init := b[..|b| - 1];
      PositionsAppend(a, init, c);
      assert (a + b)[..|a + b| - 1] == a + init;
      if forall i :: 0 <= i < |b| ==> b[i] == c {
        assert seq(|b|, i => |a| + i) == seq(|init|, i => |a| + i) + [|a + b| - 1];
      }
    } else {
      assert a + b == a;
    }
  }

  /** Leading labels equal to v do not change the first other label. */
  lemma {:induction false} FirstOtherSkip(a: seq<real>, b: seq<real>, v: real)
    requires forall i :: 0 <= i < |a| ==> a[i] == v
    ensures FirstOther(a + b, v) == FirstOther(b, v)
  {
    if |a| > 0 {
      assert (a + b)[1..] == a[1..] + b;
      FirstOtherSkip(a[1..], b, v);
    } else {
      assert a + b == b;
    }
  }

  /** Labels made of a block of one value followed by a block of another
      hold exactly those two classes. */
  lemma TwoBlockClasses(labels: seq<real>, p: nat, q: nat, first: real, second: real)
    requires p > 0 && q > 0 && first != second
    requires labels == seq(p, _ => first) + seq(q, _ => second)
    ensures Classes(labels) == Some(if first < second then (first, second) else (second, first))
  {
    var head, tail := labels[..p], labels[p..];
    assert labels == head + tail;
    FirstOtherSkip(head, tail, first);
    assert FirstOther(tail, first) == Some(second);
  }

  /** In such labels each block's positions are its index range. */
  lemma TwoBlockPositions(labels: seq<real>, p: nat, q: nat, first: real, second: real)
    requires first != second
    requires labels == seq(p, _ => first) + seq(q, _ => second)
    ensures Positions(labels, first) == Range(p)
    ensures Positions(labels, second) == seq(q, i => p + i)
  {
    var none: seq<real>, head, tail := [], labels[..p], labels[p..];
    assert labels == head + tail && head == none + head;
    assert forall i :: 0 <= i < p ==> head[i] == first;
    assert forall i :: 0 <= i < q ==> tail[i] == second;
    assert Positions(labels, first) == Range(p) by {
      assert Positions(none, first) == [];
      PositionsAppend(none, head, first);
      PositionsAppend(head, tail, first);
      assert seq(p, i => |none| + i) == Range(p);
    }
    assert Positions(labels, second) == seq(q, i => p + i) by {
      assert Positions(none, second) == [];
      PositionsAppend(none, head, second);
      PositionsAppend(head, tail, second);
    }
  }

  /** The negative-class order the documented folds imply reorders the
      example's negative positions. */
  lemma DocNegativeShuffle(neg: seq<nat>)
    requires neg == [7, 6, 8, 9]
    ensures multiset(neg) == multiset([6, 7, 8, 9])
  {
    assert multiset(neg) == multiset{7, 6, 8, 9};
    assert multiset([6, 7, 8, 9]) == multiset{6, 7, 8, 9};
  }

  /** The positive-class order the documented folds imply reorders the
      example's positive positions. */
  lemma DocPositiveShuffle(pos: seq<nat>)
    requires pos == [3, 0, 4, 5, 2, 1]
    ensures IsPermutation(pos, 6)
  {
    PermutationFromDistinct(pos, 6);
  }

  /** The documented example, classes: six positives and four negatives
      hold the classes -1 and 1, and the class orders the documented
      folds imply reorder their positions. */
  lemma StratifiedDocClasses(labels: seq<real>, neg: seq<nat>, pos: seq<nat>)
    requires labels == [1.0, 1.0, 1.0, 1.0, 1.0, 1.0, -1.0, -1.0, -1.0, -1.0]
    requires neg == [7, 6, 8, 9] && pos == [3, 0, 4, 5, 2, 1]
    ensures Classes(labels) == Some((-1.0, 1.0))
    ensures ShuffleFits(labels, neg, pos)
  {
    assert labels == seq(6, _ => 1.0) + seq(4, _ => -1.0);
    TwoBlockClasses(labels, 6, 4, 1.0, -1.0);
    TwoBlockPositions(labels, 6, 4, 1.0, -1.0);
    assert seq(4, i => 6 + i) == [6, 7, 8, 9];
    DocNegativeShuffle(neg);
    DocPositiveShuffle(pos);
  }

  /** Two stratified folds of classes of even size: each fold tests one
      half of each class and trains on the other halves. */
  lemma TwoStratifiedFoldsOfEven(neg: seq<nat>, pos: seq<nat>, tie: TieRule)
    requires |neg| % 2 == 0 && |pos| % 2 == 0
    ensures var hn, hp := |neg| / 2, |pos| / 2;
      Stratify(Splits(neg, 2, tie), Splits(pos, 2, tie))
        == [Fold(neg[hn..] + pos[hp..], neg[..hn] + pos[..hp]), Fold(neg[..hn] + pos[..hp], neg[hn..] + pos[hp..])]
  {
    TwoFoldsOfEven(neg, tie);
    TwoFoldsOfEven(pos, tie);
  }

  /** The documented example, folds: with those class orders two folds are
      exactly the documented ones, whichever rounding rule applies. */
  lemma StratifiedDocFolds(neg: seq<nat>, pos: seq<nat>, tie: TieRule)
    requires neg == [7, 6, 8, 9] && pos == [3, 0, 4, 5, 2, 1]
    ensures Stratify(Splits(neg, 2, tie), Splits(pos, 2, tie))
         == [Fold([8, 9, 5, 2, 1], [7, 6, 3, 0, 4]), Fold([7, 6, 3, 0, 4], [8, 9, 5, 2, 1])]
  {
    TwoStratifiedFoldsOfEven(neg, pos, tie);
    var n1, n2, p1, p2 := neg[..2], neg[2..], pos[..3], pos[3..];
    assert n1 == [neg[0], neg[1]] && n2 == [neg[2], neg[3]];
    assert p1 == [pos[0], pos[1], pos[2]] && p2 == [pos[3], pos[4], pos[5]];
    assert n2 + p2 == [8, 9, 5, 2, 1] && n1 + p1 == [7, 6, 3, 0, 4];
  }
}
