/** Ordering of scored rows, as the recommenders use it: a descending sort on a score
    (Python's stable `list.sort(reverse=True)`; pandas `sort_values(ascending=False)` is
    only claimed to give a non-increasing permutation) and the first `n` rows. */
module Ranking {
  import opened Seqs

  /** Scores never increase along `r`. */
  predicate NonIncreasing<T>(r: seq<T>, key: T -> real)
  {
    forall i, j :: 0 <= i < j < |r| ==> key(r[i]) >= key(r[j])
  }

  /** `x` placed before the first row whose score does not exceed its own. */
  function InsertDesc<T(==)>(x: T, ys: seq<T>, key: T -> real): (r: seq<T>)
    requires NonIncreasing(ys, key)
    ensures NonIncreasing(r, key)
    ensures multiset(r) == multiset(ys) + multiset{x}
    ensures |r| == |ys| + 1
  {
    if |ys| == 0 then [x]
    else if key(ys[0]) <= key(x) then
      var r := [x] + ys;
      assert forall i :: 0 < i < |r| ==> r[i] == ys[i - 1];
      r
    else
      var rest := InsertDesc(x, ys[1..], key);
      assert ys == [ys[0]] + ys[1..];
      InsertedBelow(x, ys, rest, key);
      [ys[0]] + rest
  }

  lemma InsertedBelow<T>(x: T, ys: seq<T>, rest: seq<T>, key: T -> real)
    requires |ys| > 0 && NonIncreasing(ys, key) && key(ys[0]) > key(x)
    requires NonIncreasing(rest, key) && multiset(rest) == multiset(ys[1..]) + multiset{x}
    ensures NonIncreasing([ys[0]] + rest, key)
  {
    var r := [ys[0]] + rest;
    forall j | 0 < j < |r|
      ensures key(r[0]) >= key(r[j])
    {
      assert r[j] in multiset(rest);
      if r[j] != x {
        assert r[j] in multiset(ys[1..]);
        var k :| 0 <= k < |ys[1..]| && ys[1..][k] == r[j];
        assert ys[k + 1] == r[j];
      }
    }
  }

  /** A stable sort by descending score. */
  function SortDesc<T(==)>(xs: seq<T>, key: T -> real): (r: seq<T>)
    ensures NonIncreasing(r, key)
    ensures multiset(r) == multiset(xs)
    ensures |r| == |xs|
  {
    if |xs| == 0 then []
    else
      assert xs == [xs[0]] + xs[1..];
      InsertDesc(xs[0], SortDesc(xs[1..], key), key)
  }

  /** Rows in the order of a position (their place in the input). */
  predicate IncreasingBy<T>(xs: seq<T>, pos: T -> int)
  {
    forall i, j :: 0 <= i < j < |xs| ==> pos(xs[i]) < pos(xs[j])
  }

  /** Descending by score, and by position among equal scores. */
  predicate ScoreThenPosition<T>(r: seq<T>, key: T -> real, pos: T -> int)
  {
    forall i, j :: 0 <= i < j < |r| ==>
      key(r[i]) > key(r[j]) || (key(r[i]) == key(r[j]) && pos(r[i]) < pos(r[j]))
  }

  /** Stability: rows in increasing position come out ordered by score, ties kept in
      their input order. */
  lemma {:induction false} SortDescStable<T>(xs: seq<T>, key: T -> real, pos: T -> int)
    requires IncreasingBy(xs, pos)
    ensures ScoreThenPosition(SortDesc(xs, key), key, pos)
    decreases |xs|
  {
    if |xs| > 0 {
      var tail := xs[1..];
      SortDescStable(tail, key, pos);
      var s := SortDesc(tail, key);
      forall y | y in s
        ensures pos(xs[0]) < pos(y)
      {
        assert y in multiset(tail);
        var k :| 0 <= k < |tail| && tail[k] == y;
        assert xs[k + 1] == y;
      }
      InsertStable(xs[0], s, key, pos);
    }
  }

  lemma {:induction false} InsertStable<T>(x: T, ys: seq<T>, key: T -> real, pos: T -> int)
    requires NonIncreasing(ys, key) && ScoreThenPosition(ys, key, pos)
    requires forall y :: y in ys ==> pos(x) < pos(y)
    ensures ScoreThenPosition(InsertDesc(x, ys, key), key, pos)
    decreases |ys|
  {
    if |ys| > 0 {
      if key(ys[0]) <= key(x) {
        StableFront(x, ys, key, pos);
      } else {
        var tail := ys[1..];
        forall y | y in tail ensures pos(x) < pos(y) { assert y in ys; }
        InsertStable(x, tail, key, pos);
        StableBehind(x, ys, InsertDesc(x, tail, key), key, pos);
      }
    }
  }

  lemma StableFront<T>(x: T, ys: seq<T>, key: T -> real, pos: T -> int)
    requires |ys| > 0 && NonIncreasing(ys, key) && ScoreThenPosition(ys, key, pos)
    requires forall y :: y in ys ==> pos(x) < pos(y)
    requires key(ys[0]) <= key(x)
    ensures ScoreThenPosition([x] + ys, key, pos)
  {
    var r := [x] + ys;
    forall i, j | 0 <= i < j < |r|
      ensures key(r[i]) > key(r[j]) || (key(r[i]) == key(r[j]) && pos(r[i]) < pos(r[j]))
    {
      if i == 0 {
        assert r[j] == ys[j - 1];
        assert key(ys[0]) >= key(ys[j - 1]);
      } else {
        assert r[i] == ys[i - 1] && r[j] == ys[j - 1];
      }
    }
  }

  lemma StableBehind<T>(x: T, ys: seq<T>, rest: seq<T>, key: T -> real, pos: T -> int)
    requires |ys| > 0 && NonIncreasing(ys, key) && ScoreThenPosition(ys, key, pos)
    requires key(ys[0]) > key(x)
    requires ScoreThenPosition(rest, key, pos)
    requires multiset(rest) == multiset(ys[1..]) + multiset{x}
    ensures ScoreThenPosition([ys[0]] + rest, key, pos)
  {
    var tail := ys[1..];
    var r := [ys[0]] + rest;
    forall j | 0 < j < |r|
      ensures key(r[0]) > key(r[j]) || (key(r[0]) == key(r[j]) && pos(r[0]) < pos(r[j]))
    {
      assert r[j] == rest[j - 1];
      assert rest[j - 1] in multiset(rest);
      if rest[j - 1] != x {
        assert rest[j - 1] in multiset(tail);
        var k :| 0 <= k < |tail| && tail[k] == rest[j - 1];
        assert ys[k + 1] == r[j];
      }
    }
    forall i, j | 0 < i < j < |r|
      ensures key(r[i]) > key(r[j]) || (key(r[i]) == key(r[j]) && pos(r[i]) < pos(r[j]))
    {
      assert r[i] == rest[i - 1] && r[j] == rest[j - 1];
    }
  }

  /** A row that occurs in `s` but not among its first `k` rows sits at some place
      `k` or later. */
  lemma PrefixPosition<T>(s: seq<T>, k: nat, x: T) returns (p: nat)
    requires k <= |s| && x in s && x !in s[..k]
    ensures k <= p < |s| && s[p] == x
  {
    p :| 0 <= p < |s| && s[p] == x;
    assert forall i :: 0 <= i < k ==> s[i] == s[..k][i] && s[..k][i] in s[..k];
  }

  /** `sort_values(ascending=False).head(n)` on rows: some of the rows (a
      sub-multiset), non-increasing, and no row left out scores above one kept. */
  lemma TopRows<T>(xs: seq<T>, key: T -> real, n: int)
    ensures var r := Head(SortDesc(xs, key), n);
      NonIncreasing(r, key) && multiset(r) <= multiset(xs) &&
      (forall x :: x in xs && x !in r ==> forall i :: 0 <= i < |r| ==> key(r[i]) >= key(x))
  {
    var sorted := SortDesc(xs, key);
    var r := Head(sorted, n);
    assert sorted == r + sorted[|r|..];
    assert multiset(sorted) == multiset(r) + multiset(sorted[|r|..]);
    SortedPrefix(sorted, key, |r|);
    forall x | x in xs && x !in r
      ensures x in sorted
    {
      assert x in multiset(xs);
    }
  }

  /** `head(n)` keeps `n` rows, or every row when fewer than `n` exist. */
  lemma TopRowsAll<T>(xs: seq<T>, key: T -> real, n: int)
    requires n >= 0
    ensures var r := Head(SortDesc(xs, key), n);
      |r| == n || (|r| == |xs| && forall x :: x in xs ==> x in r)
  {
    var sorted := SortDesc(xs, key);
    var r := Head(sorted, n);
    if |r| != n {
      assert r == sorted;
      forall x | x in xs
        ensures x in r
      {
        assert x in multiset(xs);
      }
    }
  }

  /** A prefix of a non-increasing sequence is non-increasing and scores at least as high
      as every element it leaves out. */
  lemma SortedPrefix<T>(sorted: seq<T>, key: T -> real, k: nat)
    requires NonIncreasing(sorted, key) && k <= |sorted|
    ensures NonIncreasing(sorted[..k], key)
    ensures forall x :: x in sorted && x !in sorted[..k] ==> forall i :: 0 <= i < k ==> key(sorted[..k][i]) >= key(x)
  {
    forall x | x in sorted && x !in sorted[..k]
      ensures forall i :: 0 <= i < k ==> key(sorted[..k][i]) >= key(x)
    {
      var p := PrefixPosition(sorted, k, x);
    }
  }

  /** Every row `head(n)` of a descending sort keeps is one of the input rows. */
  lemma TopRowsIn<T>(xs: seq<T>, key: T -> real, n: int)
    ensures forall x :: x in Head(SortDesc(xs, key), n) ==> x in xs
  {
    var sorted := SortDesc(xs, key);
    var r := Head(sorted, n);
    forall x | x in r
      ensures x in xs
    {
      var i :| 0 <= i < |r| && r[i] == x;
      assert sorted[i] == x;
      assert x in multiset(sorted);
    }
  }

  /** `sorted(enumerate(row), key=score, reverse=True)[1:n+1]`: positions of `row`, each
      with its own score, ranked by score and then by position, at most `n`, and none
      left out but the top one ranks above one kept. */
  lemma EnumeratedNeighbours(row: seq<real>, n: int)
    ensures var scores := Enumerate(row);
      var r := SkipTop(scores, Similarity, n);
      ScoreThenPosition(r, Similarity, Position) && (n >= 0 ==> |r| <= n) &&
      (forall i :: 0 <= i < |r| ==> r[i].0 < |row| && r[i].1 == row[r[i].0]) &&
      (|scores| > 0 ==> forall x :: x in scores && x != SortDesc(scores, Similarity)[0] && x !in r ==>
        forall i :: 0 <= i < |r| ==> r[i].1 > x.1 || (r[i].1 == x.1 && r[i].0 < x.0))
  {
    var scores := Enumerate(row);
    assert IncreasingBy(scores, Position);
    SkipTopRows(scores, n);
    var r := SkipTop(scores, Similarity, n);
    forall i | 0 <= i < |r|
      ensures r[i].0 < |row| && r[i].1 == row[r[i].0]
    {
      assert r[i] in r;
      var j :| 0 <= j < |scores| && scores[j] == r[i];
    }
  }

  // ---------------------------------------------------------------- top n of predicted movies

  /** A predicted movie: its id and its score. */
  type Prediction = (string, real)

  function Score(p: Prediction): real { p.1 }

  function IdSet(ps: seq<Prediction>): set<string>
  {
    set i | 0 <= i < |ps| :: ps[i].0
  }

  predicate DistinctIds(ps: seq<Prediction>)
  {
    forall i, j :: 0 <= i < j < |ps| ==> ps[i].0 != ps[j].0
  }

  /** Adding a prediction adds its id. */
  lemma IdSetSnoc(ps: seq<Prediction>, x: Prediction)
    ensures IdSet(ps + [x]) == IdSet(ps) + {x.0}
  {
    var qs := ps + [x];
    assert forall i :: 0 <= i < |ps| ==> qs[i] == ps[i];
    assert qs[|ps|] == x;
  }

  lemma IdSetCons(x: Prediction, ps: seq<Prediction>)
    ensures IdSet([x] + ps) == {x.0} + IdSet(ps)
  {
    var qs := [x] + ps;
    assert qs[0] == x;
    assert forall i :: 0 <= i < |ps| ==> qs[i + 1] == ps[i];
    forall g | g in IdSet(qs) ensures g in {x.0} + IdSet(ps) {
      var i :| 0 <= i < |qs| && qs[i].0 == g;
      if i > 0 {
        assert ps[i - 1] == qs[i];
      }
    }
  }

  /** `ps` lists each candidate exactly once, with its score: what the recommenders'
      prediction loops build before sorting. */
  predicate Lists(ps: seq<Prediction>, cands: set<string>, score: string -> real)
  {
    |ps| == |cands| && IdSet(ps) == cands && DistinctIds(ps) &&
    forall i :: 0 <= i < |ps| ==> ps[i].1 == score(ps[i].0)
  }

  /** `recs` is a top-`n` selection of the candidates by score (`head(n)` of a
      descending sort): candidates only, each once, with its score, non-increasing,
      as many as `head(n)` keeps, and no candidate left out scores above one kept. */
  predicate TopNOf(recs: seq<Prediction>, cands: set<string>, score: string -> real, n: int)
  {
    NonIncreasing(recs, Score) && DistinctIds(recs) &&
    (forall i :: 0 <= i < |recs| ==> recs[i].0 in cands && recs[i].1 == score(recs[i].0)) &&
    (n >= 0 ==> |recs| == (if n < |cands| then n else |cands|)) &&
    (n < 0 ==> |recs| == (if -n < |cands| then |cands| + n else 0)) &&
    (forall m :: m in cands && m !in IdSet(recs) ==>
      forall i :: 0 <= i < |recs| ==> recs[i].1 >= score(m))
  }

  /** The first `n` rows of a descending sort of such a listing are a top-`n` selection. */
  lemma SelectTop(ps: seq<Prediction>, cands: set<string>, score: string -> real, n: int)
    requires Lists(ps, cands, score)
    ensures TopNOf(Head(SortDesc(ps, Score), n), cands, score, n)
  {
    var sorted := SortDesc(ps, Score);
    SortedListing(ps, cands, score);
    var recs := Head(sorted, n);
    PrefixSelects(sorted, cands, score, |recs|);
  }

  /** Every prefix of a sorted listing keeps its order, its distinct ids and its scores,
      and no candidate beyond it scores higher than one in it. */
  lemma PrefixSelects(sorted: seq<Prediction>, cands: set<string>, score: string -> real, k: nat)
    requires Lists(sorted, cands, score) && NonIncreasing(sorted, Score) && k <= |sorted|
    ensures var recs := sorted[..k];
      NonIncreasing(recs, Score) && DistinctIds(recs) &&
      (forall i :: 0 <= i < |recs| ==> recs[i].0 in cands && recs[i].1 == score(recs[i].0)) &&
      (forall m :: m in cands && m !in IdSet(recs) ==>
        forall i :: 0 <= i < |recs| ==> recs[i].1 >= score(m))
  {
    assert forall i :: 0 <= i < k ==> sorted[..k][i] == sorted[i];
    assert forall i :: 0 <= i < |sorted| ==> sorted[i].0 in IdSet(sorted);
    PrefixDominance(sorted, cands, score, k);
  }

  /** Sorting a listing keeps it a listing. */
  lemma SortedListing(ps: seq<Prediction>, cands: set<string>, score: string -> real)
    requires Lists(ps, cands, score)
    ensures Lists(SortDesc(ps, Score), cands, score)
  {
    var sorted := SortDesc(ps, Score);
    SameElements(ps, sorted);
    DistinctPermutation(ps, sorted);
    SameIdSet(ps, sorted);
    forall i | 0 <= i < |sorted|
      ensures sorted[i].1 == score(sorted[i].0)
    {
      assert sorted[i] in ps;
      var q :| 0 <= q < |ps| && ps[q] == sorted[i];
    }
  }

  lemma SameElements<T>(a: seq<T>, b: seq<T>)
    requires multiset(a) == multiset(b)
    ensures forall x :: x in a <==> x in b
  {
    forall x
      ensures x in a <==> x in b
    {
      assert x in a <==> x in multiset(a);
      assert x in b <==> x in multiset(b);
    }
  }

  lemma DistinctPermutation(a: seq<Prediction>, b: seq<Prediction>)
    requires multiset(a) == multiset(b) && DistinctIds(a)
    ensures DistinctIds(b)
  {
    SameElements(a, b);
    forall i, j | 0 <= i < j < |b|
      ensures b[i].0 != b[j].0
    {
      assert b[i] in a && b[j] in a;
      var p :| 0 <= p < |a| && a[p] == b[i];
      var q :| 0 <= q < |a| && a[q] == b[j];
      if b[i] == b[j] {
        RepeatCount(b, i, j);
        DistinctCount(a, b[i]);
      } else {
        assert p != q;
      }
    }
  }

  lemma SameIdSet(a: seq<Prediction>, b: seq<Prediction>)
    requires forall x :: x in a <==> x in b
    ensures IdSet(a) == IdSet(b)
  {
    forall m | m in IdSet(a)
      ensures m in IdSet(b)
    {
      var q :| 0 <= q < |a| && a[q].0 == m;
      assert a[q] in b;
    }
    forall m | m in IdSet(b)
      ensures m in IdSet(a)
    {
      var q :| 0 <= q < |b| && b[q].0 == m;
      assert b[q] in a;
    }
  }

  /** In a sorted listing, a candidate outside the first `k` rows scores no more than
      any of them. */
  lemma PrefixDominance(sorted: seq<Prediction>, cands: set<string>, score: string -> real, k: nat)
    requires Lists(sorted, cands, score) && NonIncreasing(sorted, Score) && k <= |sorted|
    ensures forall m :: m in cands && m !in IdSet(sorted[..k]) ==>
      forall i :: 0 <= i < k ==> sorted[i].1 >= score(m)
  {
    forall m | m in cands && m !in IdSet(sorted[..k])
      ensures forall i :: 0 <= i < k ==> sorted[i].1 >= score(m)
    {
      var q :| 0 <= q < |sorted| && sorted[q].0 == m;
      var x := sorted[q];
      assert x !in sorted[..k];
      var p := PrefixPosition(sorted, k, x);
    }
  }

  /** Rows of a listing with distinct ids never repeat. */
  lemma {:induction false} DistinctCount(ps: seq<Prediction>, x: Prediction)
    requires DistinctIds(ps)
    ensures multiset(ps)[x] <= 1
  {
    if |ps| > 0 {
      assert ps == [ps[0]] + ps[1..];
      DistinctCount(ps[1..], x);
      if x == ps[0] {
        assert x !in ps[1..];
      }
    }
  }

  lemma RepeatCount<T>(s: seq<T>, i: int, j: int)
    requires 0 <= i < j < |s| && s[i] == s[j]
    ensures multiset(s)[s[i]] >= 2
  {
    assert s == s[..j] + [s[j]] + s[j + 1..];
    assert s[i] == s[..j][i];
    assert multiset(s[..j])[s[i]] >= 1;
  }

  /** The prediction loop of the recommenders: each candidate movie scored once, in
      whatever order the candidate set yields them. */
  method PredictAll(score: string -> real, cands: set<string>) returns (predictions: seq<Prediction>)
    ensures Lists(predictions, cands, score)
  {
    var rest := cands;
    predictions := [];
    while rest != {}
      invariant rest <= cands
      invariant IdSet(predictions) == cands - rest
      invariant DistinctIds(predictions)
      invariant |predictions| == |cands| - |rest|
      invariant forall i :: 0 <= i < |predictions| ==> predictions[i].1 == score(predictions[i].0)
      decreases |rest|
    {
      var m :| m in rest;
      PredictStep(score, cands, rest, predictions, m);
      predictions := predictions + [(m, score(m))];
      rest := rest - {m};
    }
  }

  /** One prediction more keeps the loop's bookkeeping. */
  lemma PredictStep(score: string -> real, cands: set<string>, rest: set<string>, predictions: seq<Prediction>, m: string)
    requires rest <= cands && m in rest && IdSet(predictions) == cands - rest && DistinctIds(predictions)
    requires |predictions| == |cands| - |rest|
    requires forall i :: 0 <= i < |predictions| ==> predictions[i].1 == score(predictions[i].0)
    ensures var p := predictions + [(m, score(m))];
      IdSet(p) == cands - (rest - {m}) && DistinctIds(p) && |p| == |cands| - |rest - {m}| &&
      forall i :: 0 <= i < |p| ==> p[i].1 == score(p[i].0)
  {
    var p := predictions + [(m, score(m))];
    IdSetSnoc(predictions, (m, score(m)));
    assert m !in IdSet(predictions);
    forall i, j | 0 <= i < j < |p|
      ensures p[i].0 != p[j].0
    {
      if j == |predictions| {
        assert p[i].0 in IdSet(predictions);
      }
    }
  }

  function InKeep(keep: set<string>): Prediction -> bool
  {
    (p: Prediction) => p.0 in keep
  }

  /** Keeping the predictions whose movie is in `keep` (an inner join on the movie
      table) lists exactly the candidates in `keep`. */
  lemma ListsFilter(ps: seq<Prediction>, cands: set<string>, score: string -> real, keep: set<string>)
    requires Lists(ps, cands, score)
    ensures Lists(Filter(ps, InKeep(keep)), cands * keep, score)
  {
    var f := Filter(ps, InKeep(keep));
    FilterIsSubsequence(ps, InKeep(keep));
    SubsequenceDistinct(f, ps);
    forall m | m in cands * keep
      ensures m in IdSet(f)
    {
      var q :| 0 <= q < |ps| && ps[q].0 == m;
      assert ps[q] in f;
      var t :| 0 <= t < |f| && f[t] == ps[q];
    }
    forall m | m in IdSet(f)
      ensures m in cands * keep
    {
      var t :| 0 <= t < |f| && f[t].0 == m;
      assert f[t] in ps;
      var q :| 0 <= q < |ps| && ps[q] == f[t];
    }
    forall i | 0 <= i < |f|
      ensures f[i].1 == score(f[i].0)
    {
      assert f[i] in ps;
      var q :| 0 <= q < |ps| && ps[q] == f[i];
    }
    assert IdSet(f) == cands * keep;
    DistinctIdsCard(f);
  }

  /** A subsequence of a listing with distinct ids has distinct ids. */
  lemma {:induction false} SubsequenceDistinct(xs: seq<Prediction>, ys: seq<Prediction>)
    requires IsSubsequence(xs, ys) && DistinctIds(ys)
    ensures DistinctIds(xs)
    decreases |ys|
  {
    if |xs| > 0 && |ys| > 0 {
      if xs[0] == ys[0] {
        SubsequenceDistinct(xs[1..], ys[1..]);
        SubsequenceMembers(xs[1..], ys[1..]);
        forall j | 0 < j < |xs|
          ensures xs[0].0 != xs[j].0
        {
          assert xs[j] == xs[1..][j - 1];
          assert xs[j] in ys[1..];
          var q :| 0 <= q < |ys[1..]| && ys[1..][q] == xs[j];
          assert ys[q + 1] == xs[j];
        }
      } else {
        SubsequenceDistinct(xs, ys[1..]);
      }
    }
  }

  lemma {:induction false} SubsequenceMembers<T>(xs: seq<T>, ys: seq<T>)
    requires IsSubsequence(xs, ys)
    ensures forall x :: x in xs ==> x in ys
    decreases |ys|
  {
    if |xs| > 0 && |ys| > 0 {
      if xs[0] == ys[0] {
        SubsequenceMembers(xs[1..], ys[1..]);
        assert forall x :: x in xs ==> x == xs[0] || x in xs[1..];
      } else {
        SubsequenceMembers(xs, ys[1..]);
      }
    }
  }

  /** Distinct ids: as many rows as ids. */
  lemma {:induction false} DistinctIdsCard(ps: seq<Prediction>)
    requires DistinctIds(ps)
    ensures |IdSet(ps)| == |ps|
    decreases |ps|
  {
    if |ps| > 0 {
      var init := ps[..|ps| - 1];
      var last := ps[|ps| - 1];
      assert ps == init + [last];
      DistinctIdsCard(init);
      IdSetSnoc(init, last);
      assert last.0 !in IdSet(init) by {
        forall i | 0 <= i < |init|
          ensures init[i].0 != last.0
        {
          assert init[i] == ps[i];
        }
      }
    }
  }

  // ---------------------------------------------------------------- neighbours of one movie

  /** A neighbour: its row position and its similarity. */
  type Neighbour = (nat, real)

  function Similarity(x: Neighbour): real { x.1 }

  function Position(x: Neighbour): int { x.0 }

  /** `list(enumerate(row))`. */
  function Enumerate(row: seq<real>): (r: seq<Neighbour>)
    ensures |r| == |row| && forall j :: 0 <= j < |row| ==> r[j] == (j, row[j])
  {
    seq(|row|, j requires 0 <= j < |row| => (j as nat, row[j]))
  }

  /** `sorted(scores, key=lambda x: x[1], reverse=True)[1:n+1]`: the stable descending
      sort without its first entry, cut to `n`. */
  function SkipTop<T(==)>(scores: seq<T>, key: T -> real, n: int): seq<T>
  {
    var sorted := SortDesc(scores, key);
    PySlice(sorted, 1, n + 1)
  }

  /** The first-ranked entry is exactly the one dropped: the result is the rest of the
      sorted list in order, at most `n` long, none scoring above the dropped entry. */
  lemma SkipTopSpec<T>(scores: seq<T>, key: T -> real, n: int)
    ensures var sorted := SortDesc(scores, key);
      var r := SkipTop(scores, key, n);
      NonIncreasing(r, key) &&
      (n >= 0 ==> |r| == (if |scores| == 0 then 0 else if n < |scores| - 1 then n else |scores| - 1)) &&
      (n < 0 ==> |r| == (if n == -1 || |scores| + n < 0 then 0 else |scores| + n)) &&
      (|sorted| > 0 ==> (r == sorted[1..][..|r|] &&
        forall i :: 0 <= i < |r| ==> key(r[i]) <= key(sorted[0])))
  {
    SkipSorted(SortDesc(scores, key), key, n, SkipTop(scores, key, n));
  }

  /** `[1:n+1]` of the sorted list keeps `n` entries, or all but the first when fewer exist. */
  lemma SkipTopLength<T>(scores: seq<T>, key: T -> real, n: int)
    requires n >= 0
    ensures |SkipTop(scores, key, n)| == (if |scores| == 0 then 0 else if n < |scores| - 1 then n else |scores| - 1)
  {
    SkipSorted(SortDesc(scores, key), key, n, SkipTop(scores, key, n));
  }

  /** Slicing `[1:n+1]` off a list sorted by descending score. */
  lemma SkipSorted<T>(sorted: seq<T>, key: T -> real, n: int, r: seq<T>)
    requires NonIncreasing(sorted, key) && r == PySlice(sorted, 1, n + 1)
    ensures NonIncreasing(r, key)
    ensures n >= 0 ==> |r| == (if |sorted| == 0 then 0 else if n < |sorted| - 1 then n else |sorted| - 1)
    ensures n < 0 ==> |r| == (if n == -1 || |sorted| + n < 0 then 0 else |sorted| + n)
    ensures |sorted| > 0 ==> r == sorted[1..][..|r|] && forall i :: 0 <= i < |r| ==> key(r[i]) <= key(sorted[0])
  {
    if |sorted| > 0 {
      assert forall i :: 0 <= i < |r| ==> r[i] == sorted[i + 1];
    }
  }

  /** When the queried movie is strictly the most similar to itself, the entry dropped
      is the query, and it appears nowhere in the result; ties with others are ranked
      by position. */
  lemma SkipTopDropsQuery(row: seq<real>, q: nat, n: int)
    requires q < |row| && forall j :: 0 <= j < |row| && j != q ==> row[j] < row[q]
    ensures var r := SkipTop(Enumerate(row), Similarity, n);
      (forall i :: 0 <= i < |r| ==> r[i].0 != q) && ScoreThenPosition(r, Similarity, Position)
  {
    var xs := Enumerate(row);
    var sorted := SortDesc(xs, Similarity);
    SortDescStable(xs, Similarity, Position);
    QueryOnlyFirst(row, q);
    DropFirst(sorted, q, n);
  }

  lemma QueryOnlyFirst(row: seq<real>, q: nat)
    requires q < |row| && forall j :: 0 <= j < |row| && j != q ==> row[j] < row[q]
    ensures var sorted := SortDesc(Enumerate(row), Similarity);
      |sorted| > 0 && forall i :: 1 <= i < |sorted| ==> sorted[i].0 != q
  {
    var xs := Enumerate(row);
    var sorted := SortDesc(xs, Similarity);
    TopIsQuery(row, q);
    EnumerateOnce(row, q);
    NotAfterFirst(sorted, (q, row[q]));
    forall i | 1 <= i < |sorted|
      ensures sorted[i].0 != q
    {
      assert sorted[i] in multiset(xs);
      var j :| 0 <= j < |xs| && xs[j] == sorted[i];
    }
  }

  lemma DropFirst(sorted: seq<Neighbour>, q: nat, n: int)
    requires |sorted| > 0 && forall i :: 1 <= i < |sorted| ==> sorted[i].0 != q
    requires ScoreThenPosition(sorted, Similarity, Position)
    ensures var r := PySlice(sorted, 1, n + 1);
      (forall i :: 0 <= i < |r| ==> r[i].0 != q) && ScoreThenPosition(r, Similarity, Position)
  {
    var a := PyBound(1, |sorted|);
    var b := PyBound(n + 1, |sorted|);
    if a <= b {
      SliceOrder(sorted, Similarity, Position, a, b);
      assert forall i :: 0 <= i < b - a ==> sorted[a..b][i] == sorted[a + i];
    }
  }

  /** The stable sort of a row puts its strict maximum first. */
  lemma TopIsQuery(row: seq<real>, q: nat)
    requires q < |row| && forall j :: 0 <= j < |row| && j != q ==> row[j] < row[q]
    ensures var sorted := SortDesc(Enumerate(row), Similarity);
      |sorted| > 0 && sorted[0] == (q, row[q])
  {
    var xs := Enumerate(row);
    var sorted := SortDesc(xs, Similarity);
    assert xs[q] in multiset(sorted);
    var p :| 0 <= p < |sorted| && sorted[p] == xs[q];
    assert sorted[0] in multiset(xs);
    var j :| 0 <= j < |xs| && xs[j] == sorted[0];
    assert Similarity(sorted[0]) >= Similarity(sorted[p]);
  }

  lemma NotAfterFirst<T>(s: seq<T>, x: T)
    requires |s| > 0 && s[0] == x && multiset(s)[x] == 1
    ensures forall i :: 1 <= i < |s| ==> s[i] != x
  {
    forall i | 1 <= i < |s|
      ensures s[i] != x
    {
      if s[i] == x {
        RepeatCount(s, 0, i);
      }
    }
  }

  lemma SliceOrder<T>(s: seq<T>, key: T -> real, pos: T -> int, a: nat, b: nat)
    requires a <= b <= |s| && ScoreThenPosition(s, key, pos)
    ensures ScoreThenPosition(s[a..b], key, pos)
  {
    assert forall i :: 0 <= i < b - a ==> s[a..b][i] == s[a + i];
  }

  lemma EnumerateOnce(row: seq<real>, q: nat)
    requires q < |row|
    ensures multiset(Enumerate(row))[(q, row[q])] == 1
    ensures multiset(SortDesc(Enumerate(row), Similarity))[(q, row[q])] == 1
  {
    var xs := Enumerate(row);
    assert xs == xs[..q] + [xs[q]] + xs[q + 1..];
    assert (q, row[q]) !in xs[..q];
    assert (q, row[q]) !in xs[q + 1..];
  }

  /** `[(idx, score(id)) for idx, id in enumerate(ids) if id in known]`: the rows of
      the movie table whose movie is known, in row order, with their scores. */
  function KnownRows(ids: seq<string>, known: set<string>, score: string -> real): (r: seq<Neighbour>)
    ensures forall x :: x in r ==> x.0 < |ids| && ids[x.0] in known && x.1 == score(ids[x.0])
    ensures forall j :: 0 <= j < |ids| && ids[j] in known ==> (j, score(ids[j])) in r
    ensures IncreasingBy(r, Position)
  {
    if |ids| == 0 then []
    else
      var n := |ids| - 1;
      var init := KnownRows(ids[..n], known, score);
      assert forall j :: 0 <= j < n ==> ids[..n][j] == ids[j];
      init + (if ids[n] in known then [(n, score(ids[n]))] else [])
  }

  /** Skipping the top entry of rows listed in row order ranks the rest by score and
      then by row, at most `n` of them, keeps only listed rows, and leaves none out
      that ranks above a row kept, except the skipped top entry. */
  lemma SkipTopRows(scores: seq<Neighbour>, n: int)
    requires IncreasingBy(scores, Position)
    ensures var sorted := SortDesc(scores, Similarity);
      var r := SkipTop(scores, Similarity, n);
      ScoreThenPosition(r, Similarity, Position) && (n >= 0 ==> |r| <= n) &&
      (forall x :: x in r ==> x in scores) &&
      (|sorted| > 0 ==> forall x :: x in scores && x != sorted[0] && x !in r ==>
        forall i :: 0 <= i < |r| ==> r[i].1 > x.1 || (r[i].1 == x.1 && r[i].0 < x.0))
  {
    SortDescStable(scores, Similarity, Position);
    SkipTopSpec(scores, Similarity, n);
    SkipTopOrder(scores, n);
    SkipTopMembers(scores, Similarity, n);
    SkipTopBeaten(scores, n);
  }

  lemma SkipTopOrder(scores: seq<Neighbour>, n: int)
    requires ScoreThenPosition(SortDesc(scores, Similarity), Similarity, Position)
    ensures ScoreThenPosition(SkipTop(scores, Similarity, n), Similarity, Position)
  {
    var sorted := SortDesc(scores, Similarity);
    var a := PyBound(1, |sorted|);
    var b := PyBound(n + 1, |sorted|);
    if a <= b {
      SliceOrder(sorted, Similarity, Position, a, b);
    }
  }

  lemma SkipTopMembers<T>(scores: seq<T>, key: T -> real, n: int)
    ensures forall x :: x in SkipTop(scores, key, n) ==> x in scores
  {
    var sorted := SortDesc(scores, key);
    var r := SkipTop(scores, key, n);
    if |scores| > 0 {
      SkipTopSlice(scores, key, n);
      SliceMembers(r, sorted, scores, 1);
    } else {
      assert |sorted| == 0;
    }
  }

  /** Every entry of a slice of a rearrangement of `xs` is an entry of `xs`. */
  lemma SliceMembers<T>(r: seq<T>, sorted: seq<T>, xs: seq<T>, lo: nat)
    requires lo + |r| <= |sorted| && r == sorted[lo..lo + |r|] && multiset(sorted) == multiset(xs)
    ensures forall x :: x in r ==> x in xs
  {
    forall x | x in r
      ensures x in xs
    {
      var i :| 0 <= i < |r| && r[i] == x;
      assert sorted[lo + i] == x;
      assert x in multiset(sorted);
    }
  }

  lemma SkipTopBeaten(scores: seq<Neighbour>, n: int)
    requires ScoreThenPosition(SortDesc(scores, Similarity), Similarity, Position)
    ensures var sorted := SortDesc(scores, Similarity);
      var r := SkipTop(scores, Similarity, n);
      |sorted| > 0 ==> forall x :: x in scores && x != sorted[0] && x !in r ==>
        forall i :: 0 <= i < |r| ==> r[i].1 > x.1 || (r[i].1 == x.1 && r[i].0 < x.0)
  {
    var sorted := SortDesc(scores, Similarity);
    var r := SkipTop(scores, Similarity, n);
    if |sorted| > 0 {
      SkipTopSlice(scores, Similarity, n);
      SameElements(scores, sorted);
      forall x | x in scores && x != sorted[0] && x !in r
        ensures forall i :: 0 <= i < |r| ==> r[i].1 > x.1 || (r[i].1 == x.1 && r[i].0 < x.0)
      {
        BeyondSlice(sorted, |r|, x);
      }
    }
  }

  lemma SkipTopSlice<T>(scores: seq<T>, key: T -> real, n: int)
    requires |scores| > 0
    ensures var sorted := SortDesc(scores, key);
      var r := SkipTop(scores, key, n);
      1 + |r| <= |sorted| && r == sorted[1..1 + |r|]
  {
  }

  /** An entry of a ranked list that is neither its head nor among the `k` after it
      ranks below each of those `k`. */
  lemma BeyondSlice(sorted: seq<Neighbour>, k: nat, x: Neighbour)
    requires 1 + k <= |sorted| && ScoreThenPosition(sorted, Similarity, Position)
    requires x in sorted && x != sorted[0] && x !in sorted[1..1 + k]
    ensures var r := sorted[1..1 + k];
      forall i :: 0 <= i < k ==> r[i].1 > x.1 || (r[i].1 == x.1 && r[i].0 < x.0)
  {
    var r := sorted[1..1 + k];
    var p :| 0 <= p < |sorted| && sorted[p] == x;
    forall j | 1 <= j <= k
      ensures sorted[j] != x
    {
      assert sorted[j] == r[j - 1];
    }
    assert p > k;
    forall i | 0 <= i < k
      ensures r[i].1 > x.1 || (r[i].1 == x.1 && r[i].0 < x.0)
    {
      assert r[i] == sorted[i + 1];
      assert Similarity(sorted[i + 1]) > Similarity(sorted[p]) ||
        (Similarity(sorted[i + 1]) == Similarity(sorted[p]) && Position(sorted[i + 1]) < Position(sorted[p]));
    }
  }

  /** Under any key, no entry left out of a skip-top selection, other than the skipped
      top entry, scores above one kept. */
  lemma SkipTopDominates<T>(scores: seq<T>, key: T -> real, n: int)
    ensures var sorted := SortDesc(scores, key);
      var r := SkipTop(scores, key, n);
      |sorted| > 0 ==> forall x :: x in scores && x != sorted[0] && x !in r ==>
        forall i :: 0 <= i < |r| ==> key(r[i]) >= key(x)
  {
    var sorted := SortDesc(scores, key);
    var r := SkipTop(scores, key, n);
    if |sorted| > 0 {
      assert r == sorted[1..1 + |r|];
      SameElements(scores, sorted);
      forall x | x in scores && x != sorted[0] && x !in r
        ensures forall i :: 0 <= i < |r| ==> key(r[i]) >= key(x)
      {
        BelowSlice(sorted, key, r, x);
      }
    }
  }

  /** An entry of a non-increasing list that is neither its head nor among the slice
      `r` right after it scores no higher than each entry of `r`. */
  lemma BelowSlice<T>(sorted: seq<T>, key: T -> real, r: seq<T>, x: T)
    requires 1 + |r| <= |sorted| && r == sorted[1..1 + |r|] && NonIncreasing(sorted, key)
    requires x in sorted && x != sorted[0] && x !in r
    ensures forall i :: 0 <= i < |r| ==> key(r[i]) >= key(x)
  {
    var p :| 0 <= p < |sorted| && sorted[p] == x;
    forall j | 1 <= j <= |r|
      ensures sorted[j] != x
    {
      assert sorted[j] == r[j - 1];
    }
    assert p > |r|;
    forall i | 0 <= i < |r|
      ensures key(r[i]) >= key(x)
    {
      assert r[i] == sorted[i + 1];
    }
  }

  // ---------------------------------------------------------------- rows with extra columns

  /** The first components of a sequence of pairs: rows without the columns a merge
      added. */
  function Firsts<A, B>(ys: seq<(A, B)>): (r: seq<A>)
    ensures |r| == |ys| && forall i :: 0 <= i < |ys| ==> r[i] == ys[i].0
  {
    seq(|ys|, i requires 0 <= i < |ys| => ys[i].0)
  }

  /** Sorting rows by a key that reads only their first component, then dropping the
      second, is sorting the first components. */
  lemma {:induction false} SortFirsts<A, B>(ys: seq<(A, B)>, k1: A -> real, k2: ((A, B)) -> real)
    requires forall y :: k2(y) == k1(y.0)
    ensures Firsts(SortDesc(ys, k2)) == SortDesc(Firsts(ys), k1)
    decreases |ys|
  {
    if |ys| > 0 {
      var rest := SortDesc(ys[1..], k2);
      SortFirsts(ys[1..], k1, k2);
      var fs := Firsts(ys);
      assert fs[0] == ys[0].0 && fs[1..] == Firsts(ys[1..]);
      assert SortDesc(fs, k1) == InsertDesc(ys[0].0, SortDesc(Firsts(ys[1..]), k1), k1);
      assert SortDesc(ys, k2) == InsertDesc(ys[0], rest, k2);
      InsertFirsts(ys[0], rest, k1, k2);
    }
  }

  lemma {:induction false} InsertFirsts<A, B>(y: (A, B), ys: seq<(A, B)>, k1: A -> real, k2: ((A, B)) -> real)
    requires forall z :: k2(z) == k1(z.0)
    requires NonIncreasing(ys, k2)
    ensures NonIncreasing(Firsts(ys), k1)
    ensures Firsts(InsertDesc(y, ys, k2)) == InsertDesc(y.0, Firsts(ys), k1)
    decreases |ys|
  {
    var fs := Firsts(ys);
    assert forall i, j :: 0 <= i < j < |fs| ==> k1(fs[i]) == k2(ys[i]) && k1(fs[j]) == k2(ys[j]);
    if |ys| > 0 {
      if k2(ys[0]) <= k2(y) {
        assert Firsts([y] + ys) == [y.0] + fs;
      } else {
        InsertFirsts(y, ys[1..], k1, k2);
        assert fs[1..] == Firsts(ys[1..]);
        assert Firsts([ys[0]] + InsertDesc(y, ys[1..], k2)) == [ys[0].0] + Firsts(InsertDesc(y, ys[1..], k2));
      }
    }
  }

  lemma FirstsAppend<A, B>(xs: seq<(A, B)>, ys: seq<(A, B)>)
    ensures Firsts(xs + ys) == Firsts(xs) + Firsts(ys)
  {
  }

  /** Taking the first `n` rows commutes with dropping the added columns. */
  lemma HeadFirsts<A, B>(ys: seq<(A, B)>, n: int)
    ensures Firsts(Head(ys, n)) == Head(Firsts(ys), n)
  {
  }
}
