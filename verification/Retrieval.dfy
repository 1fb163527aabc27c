/** Top-k retrieval over scores: the filter, the stable descending sort and the cut. */
module Retrieval {

  /** Rank order: higher score first, equal scores in insertion order. */
  predicate Before(scores: seq<real>, i: nat, j: nat)
    requires i < |scores| && j < |scores|
  {
    scores[i] > scores[j] || (scores[i] == scores[j] && i < j)
  }

  ghost predicate InRange(scores: seq<real>, p: seq<nat>) {
    forall x :: 0 <= x < |p| ==> p[x] < |scores|
  }

  ghost predicate Ranked(scores: seq<real>, p: seq<nat>) {
    InRange(scores, p) && forall x, y :: 0 <= x < y < |p| ==> Before(scores, p[x], p[y])
  }

  /** Indices scoring at least `minScore`, in insertion order. */
  function Qualifying(scores: seq<real>, minScore: real, n: nat): (p: seq<nat>)
    requires n <= |scores|
    ensures forall x :: 0 <= x < |p| ==> p[x] < n && scores[p[x]] >= minScore
    ensures forall i: nat :: i < n && scores[i] >= minScore ==> i in p
    ensures forall x, y :: 0 <= x < y < |p| ==> p[x] < p[y]
  {
    if n == 0 then []
    else if scores[n - 1] >= minScore then Qualifying(scores, minScore, n - 1) + [n - 1]
    else Qualifying(scores, minScore, n - 1)
  }

  /** Stable insertion: after everything that does not score lower. */
  function Insert(scores: seq<real>, ranked: seq<nat>, i: nat): (r: seq<nat>)
    requires InRange(scores, ranked) && i < |scores|
    ensures |r| == |ranked| + 1 && InRange(scores, r)
    ensures forall j :: j in r <==> j in ranked || j == i
  {
    if ranked == [] || scores[ranked[|ranked| - 1]] >= scores[i] then ranked + [i]
    else
      var last := |ranked| - 1;
      Insert(scores, ranked[..last], i) + [ranked[last]]
  }

  lemma {:induction false} InsertKeepsRanked(scores: seq<real>, ranked: seq<nat>, i: nat)
    requires Ranked(scores, ranked) && i < |scores| && forall x :: 0 <= x < |ranked| ==> ranked[x] < i
    ensures Ranked(scores, Insert(scores, ranked, i))
  {
    var last := |ranked| - 1;
    if ranked == [] {
    } else if scores[ranked[last]] >= scores[i] {
      forall x | 0 <= x < |ranked| ensures Before(scores, ranked[x], i) {
        if x < last { assert Before(scores, ranked[x], ranked[last]); }
      }
    } else {
      InsertKeepsRanked(scores, ranked[..last], i);
      var rest := Insert(scores, ranked[..last], i);
      forall x | 0 <= x < |rest| ensures Before(scores, rest[x], ranked[last]) {
        assert rest[x] in rest;
        if rest[x] != i {
          var y :| 0 <= y < last && ranked[..last][y] == rest[x];
          assert Before(scores, ranked[y], ranked[last]);
        }
      }
    }
  }

  /** The library's stable sort, by descending score, of indices given in insertion order. */
  function SortDescending(scores: seq<real>, p: seq<nat>): (r: seq<nat>)
    requires InRange(scores, p)
    ensures |r| == |p| && InRange(scores, r) && forall j :: j in r <==> j in p
  {
    if p == [] then []
    else
      var n := |p| - 1;
      assert p == p[..n] + [p[n]];
      Insert(scores, SortDescending(scores, p[..n]), p[n])
  }

  lemma {:induction false} SortIsRanked(scores: seq<real>, p: seq<nat>)
    requires InRange(scores, p) && forall x, y :: 0 <= x < y < |p| ==> p[x] < p[y]
    ensures Ranked(scores, SortDescending(scores, p))
  {
    if p != [] {
      var n := |p| - 1;
      SortIsRanked(scores, p[..n]);
      var r := SortDescending(scores, p[..n]);
      forall y | 0 <= y < |r| ensures r[y] < p[n] {
        assert r[y] in p[..n];
        var x :| 0 <= x < n && p[..n][x] == r[y];
      }
      InsertKeepsRanked(scores, r, p[n]);
    }
  }

  function TopK(scores: seq<real>, minScore: real, limit: nat): (p: seq<nat>)
    ensures InRange(scores, p)
  {
    var sorted := SortDescending(scores, Qualifying(scores, minScore, |scores|));
    if |sorted| <= limit then sorted else sorted[..limit]
  }

  /**
   What retrieval promises: qualifying entries only, in rank order, as many as the limit and the
   supply allow, and nothing left out that ranks before anything kept.
   */
  ghost predicate IsTopK(scores: seq<real>, minScore: real, limit: nat, p: seq<nat>) {
    && Ranked(scores, p)
    && (forall x :: 0 <= x < |p| ==> scores[p[x]] >= minScore)
    && |p| <= limit
    && (forall j: nat :: j < |scores| && scores[j] >= minScore && j !in p ==>
          |p| == limit && forall x :: 0 <= x < |p| ==> Before(scores, p[x], j))
  }

  lemma TopKCorrect(scores: seq<real>, minScore: real, limit: nat)
    ensures IsTopK(scores, minScore, limit, TopK(scores, minScore, limit))
    ensures var q := |Qualifying(scores, minScore, |scores|)|;
      |TopK(scores, minScore, limit)| == if q <= limit then q else limit
  {
    var q := Qualifying(scores, minScore, |scores|);
    var sorted := SortDescending(scores, q);
    SortIsRanked(scores, q);
    forall x | 0 <= x < |sorted| ensures scores[sorted[x]] >= minScore {
      assert sorted[x] in q;
    }
    forall j: nat | j < |scores| && scores[j] >= minScore ensures j in sorted {
      assert j in q;
    }
    CutIsTopK(scores, minScore, limit, sorted);
  }

  /** Cutting a full ranking of the qualifying entries keeps the promise. */
  lemma CutIsTopK(scores: seq<real>, minScore: real, limit: nat, sorted: seq<nat>)
    requires Ranked(scores, sorted) && (forall x :: 0 <= x < |sorted| ==> scores[sorted[x]] >= minScore)
    requires forall j: nat :: j < |scores| && scores[j] >= minScore ==> j in sorted
    ensures IsTopK(scores, minScore, limit, if |sorted| <= limit then sorted else sorted[..limit])
  {
    var p := if |sorted| <= limit then sorted else sorted[..limit];
    forall j: nat | j < |scores| && scores[j] >= minScore && j !in p
      ensures |p| == limit && forall x :: 0 <= x < |p| ==> Before(scores, p[x], j)
    {
      var y :| 0 <= y < |sorted| && sorted[y] == j;
      assert forall x :: 0 <= x < |p| ==> p[x] == sorted[x];
    }
  }

  /** Two rankings that both keep the promise have the same entry at every place. */
  lemma {:induction false} TopKAgreesAt(scores: seq<real>, minScore: real, limit: nat, p: seq<nat>, q: seq<nat>, x: nat)
    requires IsTopK(scores, minScore, limit, p) && IsTopK(scores, minScore, limit, q) && x < |p| && x < |q|
    ensures p[x] == q[x]
  {
    forall y: nat | y < x ensures p[y] == q[y] {
      TopKAgreesAt(scores, minScore, limit, p, q, y);
    }
    if p[x] != q[x] {
      NotAheadOf(scores, minScore, limit, p, q, x);
      NotAheadOf(scores, minScore, limit, q, p, x);
    }
  }

  /** Given equal entries before place `x`, the one of `p` cannot rank before the one of `q`. */
  lemma NotAheadOf(scores: seq<real>, minScore: real, limit: nat, p: seq<nat>, q: seq<nat>, x: nat)
    requires IsTopK(scores, minScore, limit, p) && IsTopK(scores, minScore, limit, q) && x < |p| && x < |q|
    requires forall y :: 0 <= y < x ==> p[y] == q[y]
    ensures !Before(scores, p[x], q[x])
  {
    forall y | 0 <= y < x ensures q[y] != p[x] {
      assert Before(scores, p[y], p[x]);
    }
  }

  lemma TopKSameLength(scores: seq<real>, minScore: real, limit: nat, p: seq<nat>, q: seq<nat>)
    requires IsTopK(scores, minScore, limit, p) && IsTopK(scores, minScore, limit, q)
    ensures |p| >= |q|
  {
    if |p| < |q| {
      var j := q[|p|];
      forall x: nat | x < |p| ensures p[x] != j {
        TopKAgreesAt(scores, minScore, limit, p, q, x);
        assert Before(scores, q[x], q[|p|]);
      }
    }
  }

  /** The promise determines the answer: nothing else satisfies it. */
  lemma TopKUnique(scores: seq<real>, minScore: real, limit: nat, p: seq<nat>)
    requires IsTopK(scores, minScore, limit, p)
    ensures p == TopK(scores, minScore, limit)
  {
    var q := TopK(scores, minScore, limit);
    TopKCorrect(scores, minScore, limit);
    TopKSameLength(scores, minScore, limit, p, q);
    TopKSameLength(scores, minScore, limit, q, p);
    forall x: nat | x < |p| ensures p[x] == q[x] {
      TopKAgreesAt(scores, minScore, limit, p, q, x);
    }
  }
}
