/** The connection rule of `ParticleSystem.drawConnections`: which pairs of particles the nested
    loop looks at, which of them get a line, and how opaque each line is. Distances are a table
    of non-negative numbers; tying them to particle positions is left to the particle field. */
module Connections {

  const ConnectionDistance: real := 150.0

  /** Stroke opacity of a connection between two particles `d` apart. */
  function Opacity(d: real): (r: real)
    ensures 0.0 <= d < ConnectionDistance ==> 0.0 < r <= 0.3
    ensures d == 0.0 ==> r == 0.3
    ensures d == ConnectionDistance ==> r == 0.0
  {
    (1.0 - d / ConnectionDistance) * 0.3
  }

  /** The opacity falls off linearly: nearer pairs get strictly more opaque lines. */
  lemma OpacityFallsOff(d: real, e: real)
    requires d < e
    ensures Opacity(d) > Opacity(e)
    ensures Opacity(d) - Opacity(e) == (e - d) * 0.002
  {
  }

  /** A pair of particle indices `i < j`, and a line drawn between them. */
  datatype Pair = Pair(i: nat, j: nat)
  datatype Line = Line(i: nat, j: nat, opacity: real)

  /** The order in which the nested loop meets pairs. */
  predicate Before(p: Pair, q: Pair) {
    p.i < q.i || (p.i == q.i && p.j < q.j)
  }

  predicate Ascending(ps: seq<Pair>) {
    forall a, b :: 0 <= a < b < |ps| ==> Before(ps[a], ps[b])
  }

  /** The pairs the inner loop of row `i` visits before `j`: (i, i+1), ..., (i, j-1). */
  function RowPairs(i: nat, j: nat): seq<Pair>
    decreases j
  {
    if j <= i + 1 then [] else RowPairs(i, j - 1) + [Pair(i, j - 1)]
  }

  /** The pairs the loop visits in rows 0 .. i-1 of `n` particles. */
  function PairsBelow(n: nat, i: nat): seq<Pair>
  {
    if i == 0 then [] else PairsBelow(n, i - 1) + RowPairs(i - 1, n)
  }

  /** Every pair the loop visits, in the order it visits them. */
  function AllPairs(n: nat): seq<Pair>
  {
    PairsBelow(n, n)
  }

  lemma {:induction false} RowPairsLength(i: nat, j: nat)
    ensures |RowPairs(i, j)| == if j <= i + 1 then 0 else j - i - 1
  {
    if j > i + 1 {
      RowPairsLength(i, j - 1);
    }
  }

  lemma {:induction false} RowPairsFacts(i: nat, j: nat)
    ensures forall p :: p in RowPairs(i, j) <==> p.i == i && i < p.j < j
    ensures Ascending(RowPairs(i, j))
  {
    if j > i + 1 {
      RowPairsFacts(i, j - 1);
    }
  }

  /** Two ascending runs, the first wholly before the second, make one ascending run. */
  lemma AscendingConcat(xs: seq<Pair>, ys: seq<Pair>)
    requires Ascending(xs) && Ascending(ys)
    requires forall p, q :: p in xs && q in ys ==> Before(p, q)
    ensures Ascending(xs + ys)
  {
    var zs := xs + ys;
    forall a, b | 0 <= a < b < |zs| ensures Before(zs[a], zs[b]) {
      if b < |xs| {
        assert zs[a] == xs[a] && zs[b] == xs[b];
      } else if a >= |xs| {
        assert zs[a] == ys[a - |xs|] && zs[b] == ys[b - |xs|];
      } else {
        assert zs[a] in xs && zs[b] in ys;
      }
    }
  }

  lemma {:induction false} PairsBelowCount(n: nat, i: nat)
    requires i <= n
    ensures 2 * |PairsBelow(n, i)| == i * (2 * n - i - 1)
  {
    if i > 0 {
      PairsBelowCount(n, i - 1);
      RowPairsLength(i - 1, n);
      CountStep(n, i, |PairsBelow(n, i - 1)|);
    }
  }

  /** The arithmetic of one more row: (i-1)(2n-i) + 2(n-i) = i(2n-i-1). */
  lemma CountStep(n: int, i: int, prev: int)
    requires 2 * prev == (i - 1) * (2 * n - i)
    ensures 2 * (prev + (n - i)) == i * (2 * n - i - 1)
  {
    var w := 2 * n - i;
    assert (i - 1) * w == i * w - w;
    assert i * (w - 1) == i * w - i;
  }

  lemma {:induction false} PairsBelowMembers(n: nat, i: nat)
    ensures forall p :: p in PairsBelow(n, i) <==> p.i < i && p.i < p.j < n
  {
    if i > 0 {
      PairsBelowMembers(n, i - 1);
      RowPairsFacts(i - 1, n);
      var below, row := PairsBelow(n, i - 1), RowPairs(i - 1, n);
      assert PairsBelow(n, i) == below + row;
      forall p: Pair ensures p in below + row <==> p.i < i && p.i < p.j < n {
        assert p in below + row <==> p in below || p in row;
        if p.i + 1 < i {
          assert p !in row;
        } else {
          assert p !in below;
        }
      }
    }
  }

  lemma {:induction false} PairsBelowAscending(n: nat, i: nat)
    ensures Ascending(PairsBelow(n, i))
  {
    if i > 0 {
      PairsBelowAscending(n, i - 1);
      PairsBelowMembers(n, i - 1);
      RowPairsFacts(i - 1, n);
      AscendingConcat(PairsBelow(n, i - 1), RowPairs(i - 1, n));
    }
  }

  lemma PairsBelowFacts(n: nat, i: nat)
    requires i <= n
    ensures 2 * |PairsBelow(n, i)| == i * (2 * n - i - 1)
    ensures forall p :: p in PairsBelow(n, i) <==> p.i < i && p.i < p.j < n
    ensures Ascending(PairsBelow(n, i))
  {
    PairsBelowCount(n, i);
    PairsBelowMembers(n, i);
    PairsBelowAscending(n, i);
  }

  /** The loop `for i < n, for i < j < n` visits each unordered pair of `n` particles exactly
      once: every pair `i < j < n` occurs, nothing else does, no pair occurs twice, and there
      are n(n-1)/2 of them. */
  lemma AllPairsVisitedOnce(n: nat)
    ensures forall p :: p in AllPairs(n) <==> p.i < p.j < n
    ensures forall a, b :: 0 <= a < b < |AllPairs(n)| ==> AllPairs(n)[a] != AllPairs(n)[b]
    ensures |AllPairs(n)| == n * (n - 1) / 2
    ensures Ascending(AllPairs(n))
  {
    PairsBelowFacts(n, n);
  }

  /** Fewer than two particles: the loop checks no pair at all. */
  lemma NoPairsBelowTwo(n: nat)
    requires n <= 1
    ensures AllPairs(n) == []
  {
    PairsBelowFacts(n, n);
  }

  /** `dist` is an n-by-n table of non-negative distances. */
  predicate DistanceTable(dist: seq<seq<real>>, n: nat) {
    |dist| == n &&
    (forall i :: 0 <= i < n ==> |dist[i]| == n) &&
    (forall i, j :: 0 <= i < n && 0 <= j < n ==> 0.0 <= dist[i][j])
  }

  predicate InTable(dist: seq<seq<real>>, ps: seq<Pair>) {
    forall k :: 0 <= k < |ps| ==> ps[k].i < |dist| && ps[k].j < |dist[ps[k].i]|
  }

  /** The line for a visited pair: present only when `distance < connectionDistance` (and, so
      that the function is total, only for a pair inside the table). */
  function LineFor(dist: seq<seq<real>>, p: Pair): (r: seq<Line>)
  {
    if p.i < |dist| && p.j < |dist[p.i]| && dist[p.i][p.j] < ConnectionDistance then
      [Line(p.i, p.j, Opacity(dist[p.i][p.j]))]
    else
      []
  }

  /** The lines drawn, in order, while the pairs `ps` are visited. */
  function Drawn(dist: seq<seq<real>>, ps: seq<Pair>): (r: seq<Line>)
    ensures |r| <= |ps|
  {
    if ps == [] then [] else Drawn(dist, ps[..|ps| - 1]) + LineFor(dist, ps[|ps| - 1])
  }

  lemma DrawnPush(dist: seq<seq<real>>, ps: seq<Pair>, p: Pair)
    ensures Drawn(dist, ps + [p]) == Drawn(dist, ps) + LineFor(dist, p)
  {
    assert (ps + [p])[..|ps|] == ps;
  }

  /** The lines of row `i` up to (not including) column `j`, one column at a time. */
  function RowLines(dist: seq<seq<real>>, i: nat, j: nat): (r: seq<Line>)
    decreases j
  {
    if j <= i + 1 then [] else RowLines(dist, i, j - 1) + LineFor(dist, Pair(i, j - 1))
  }

  /** Row `i`'s lines are the lines drawn while its pairs are visited. */
  lemma {:induction false} RowLinesDrawn(dist: seq<seq<real>>, i: nat, j: nat)
    ensures RowLines(dist, i, j) == Drawn(dist, RowPairs(i, j))
    decreases j
  {
    if j > i + 1 {
      RowLinesDrawn(dist, i, j - 1);
      DrawnPush(dist, RowPairs(i, j - 1), Pair(i, j - 1));
    }
  }

  /** Visiting `ps` and then `qs` draws the lines of `ps` and then those of `qs`. */
  lemma {:induction false} DrawnAppend(dist: seq<seq<real>>, ps: seq<Pair>, qs: seq<Pair>)
    ensures Drawn(dist, ps + qs) == Drawn(dist, ps) + Drawn(dist, qs)
  {
    if qs != [] {
      var init, last := qs[..|qs| - 1], qs[|qs| - 1];
      assert qs == init + [last];
      assert ps + qs == (ps + init) + [last];
      DrawnAppend(dist, ps, init);
      DrawnPush(dist, ps + init, last);
      DrawnPush(dist, init, last);
    } else {
      assert ps + qs == ps;
    }
  }

  /** A line is drawn for exactly the visited pairs that are closer than the threshold, with the
      opacity of their distance; and the lines come in the order of their pairs. */
  lemma {:induction false} DrawnFacts(dist: seq<seq<real>>, ps: seq<Pair>)
    requires InTable(dist, ps) && Ascending(ps)
    ensures forall l :: l in Drawn(dist, ps) <==>
              Pair(l.i, l.j) in ps && dist[l.i][l.j] < ConnectionDistance && l.opacity == Opacity(dist[l.i][l.j])
    ensures forall a, b :: 0 <= a < b < |Drawn(dist, ps)| ==>
              Before(Pair(Drawn(dist, ps)[a].i, Drawn(dist, ps)[a].j), Pair(Drawn(dist, ps)[b].i, Drawn(dist, ps)[b].j))
  {
    if ps != [] {
      var init, last := ps[..|ps| - 1], ps[|ps| - 1];
      assert ps == init + [last];
      DrawnFacts(dist, init);
      var d := Drawn(dist, init);
      assert Drawn(dist, ps) == d + LineFor(dist, last);
      forall l | l in d ensures Before(Pair(l.i, l.j), last) {
        var k :| 0 <= k < |init| && init[k] == Pair(l.i, l.j);
        assert ps[k] == init[k];
      }
    }
  }

  /** The whole rule for `n` particles: a line (i, j) is drawn exactly when `i < j < n` and the
      pair is closer than the threshold, its opacity is that of the distance, and no pair gets
      two lines. */
  lemma ConnectionRule(dist: seq<seq<real>>, n: nat)
    requires DistanceTable(dist, n)
    ensures InTable(dist, AllPairs(n))
    ensures forall l :: l in Drawn(dist, AllPairs(n)) <==>
              l.i < l.j < n && dist[l.i][l.j] < ConnectionDistance && l.opacity == Opacity(dist[l.i][l.j])
    ensures forall a, b :: 0 <= a < b < |Drawn(dist, AllPairs(n))| ==>
              Pair(Drawn(dist, AllPairs(n))[a].i, Drawn(dist, AllPairs(n))[a].j) !=
              Pair(Drawn(dist, AllPairs(n))[b].i, Drawn(dist, AllPairs(n))[b].j)
  {
    PairsBelowFacts(n, n);
    var ps := AllPairs(n);
    assert forall k :: 0 <= k < |ps| ==> ps[k] in ps;
    DrawnFacts(dist, ps);
  }
}
