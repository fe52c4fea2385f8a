/** When the lines of an edge do not meet, and what that means for the filtered buffer. */
module EdgeGeometry {
  import opened CInt
  import opened LineFilters
  import opened LineJobs
  import opened EdgePlans

  /** The places of plane `i` of line `n`. */
  function PlacesOf(e: Edge, plan: Plan, n: nat, i: nat): seq<int>
    requires n < |plan| && i < |plan[n]|
  {
    LinePlaces(e.Line(n) + plan[n][i].offset, e.step, plan[n][i].filter.Depth())
  }

  predicate LinesApart(e: Edge, plan: Plan) {
    forall m, i, n, j {:trigger PlacesOf(e, plan, m, i), PlacesOf(e, plan, n, j)} ::
      0 <= m < |plan| && 0 <= i < |plan[m]| && 0 <= n < |plan| && 0 <= j < |plan[n]| && (m != n || i != j) ==>
        Apart(PlacesOf(e, plan, m, i), PlacesOf(e, plan, n, j))
  }

  /** Job `j` is that of plane `i` of line `n`. */
  predicate IsJobOf(j: Job, e: Edge, plan: Plan, n: int, i: int) {
    0 <= n < |plan| && 0 <= i < |plan[n]| && j == Job(PlacesOf(e, plan, n, i), plan[n][i].filter)
  }

  lemma {:induction false} JobHasLine(e: Edge, plan: Plan, x: nat) returns (n: nat, i: nat)
    requires x < |Jobs(e, plan)|
    ensures IsJobOf(Jobs(e, plan)[x], e, plan, n, i)
  {
    var l := |plan| - 1;
    var front := Jobs(e, plan[..l]);
    if x < |front| {
      n, i := JobHasLine(e, plan[..l], x);
    } else {
      n, i := l, x - |front|;
    }
  }

  lemma {:induction false} LineHasJob(e: Edge, plan: Plan, n: nat, i: nat) returns (x: nat)
    requires n < |plan| && i < |plan[n]|
    ensures x < |Jobs(e, plan)| && IsJobOf(Jobs(e, plan)[x], e, plan, n, i)
  {
    var l := |plan| - 1;
    if n < l {
      x := LineHasJob(e, plan[..l], n, i);
    } else {
      x := |Jobs(e, plan[..l])| + i;
    }
  }

  lemma AppendApart(a: seq<Job>, b: seq<Job>)
    requires PairwiseApart(a) && PairwiseApart(b)
    requires forall i, j :: 0 <= i < |a| && 0 <= j < |b| ==> Apart(a[i].at, b[j].at)
    ensures PairwiseApart(a + b)
  {
    forall i, j | 0 <= i < |a + b| && 0 <= j < |a + b| && i != j ensures Apart((a + b)[i].at, (a + b)[j].at) {
      if j < |a| <= i {
        ApartBothWays(a[j].at, b[i - |a|].at);
      }
    }
  }

  lemma ApartBothWays(a: seq<int>, b: seq<int>)
    requires Apart(a, b)
    ensures Apart(b, a)
  {
  }

  lemma {:induction false} JobsPairwiseApart(e: Edge, plan: Plan)
    requires LinesApart(e, plan)
    ensures PairwiseApart(Jobs(e, plan))
  {
    hide LinePlaces, Apart;
    if plan != [] {
      var l := |plan| - 1;
      FrontApart(e, plan);
      JobsPairwiseApart(e, plan[..l]);
      var front, last := Jobs(e, plan[..l]), JobsOfLine(e.Line(l), e.step, plan[l]);
      forall i | 0 <= i < |last| ensures last[i].at == PlacesOf(e, plan, l, i) {}
      forall x, j | 0 <= x < |front| && 0 <= j < |last| ensures Apart(front[x].at, last[j].at) {
        var n, i := JobHasLine(e, plan[..l], x);
        assert front[x].at == PlacesOf(e, plan, n, i);
      }
      AppendApart(front, last);
    }
  }

  lemma FrontApart(e: Edge, plan: Plan)
    requires LinesApart(e, plan) && plan != []
    ensures LinesApart(e, plan[..|plan| - 1])
  {
    hide LinePlaces, Apart;
    var f := plan[..|plan| - 1];
    forall m, i, n, j | 0 <= m < |f| && 0 <= i < |f[m]| && 0 <= n < |f| && 0 <= j < |f[n]| && (m != n || i != j)
      ensures Apart(PlacesOf(e, f, m, i), PlacesOf(e, f, n, j))
    {
      assert PlacesOf(e, f, m, i) == PlacesOf(e, plan, m, i) && PlacesOf(e, f, n, j) == PlacesOf(e, plan, n, j);
    }
  }

  // ---------------------------------------------------------------------------------------
  // The four layouts.
  // ---------------------------------------------------------------------------------------

  /** Row and column are determined by the place when the columns span less than a stride. */
  lemma RowAndColumn(a: int, b: int, a': int, b': int, strd: int)
    requires a * strd + b == a' * strd + b' && Abs(b - b') < Abs(strd)
    ensures a == a' && b == b'
  {
    AtLeastOneStride(a - a', strd);
    assert (a - a') * strd == b' - b;
  }

  lemma AtLeastOneStride(rows: int, strd: int)
    ensures rows != 0 ==> Abs(rows * strd) >= Abs(strd)
  {
    if rows >= 1 {
      assert Abs(rows * strd) == rows * Abs(strd);
    } else if rows <= -1 {
      assert Abs(rows * strd) == -rows * Abs(strd);
    }
  }

  /** A line's planes lie side by side, at most `planes` of them, filtered `d` samples deep. */
  predicate RegularLine(line: seq<Plane>, planes: nat, d: nat) {
    |line| <= planes && forall i :: 0 <= i < |line| ==> line[i].offset == i && line[i].filter.Depth() == d
  }

  /** At most `lines` lines, each regular or left alone. */
  predicate Regular(plan: Plan, lines: nat, planes: nat, d: nat) {
    |plan| <= lines && forall n :: 0 <= n < |plan| ==> RegularLine(plan[n], planes, d)
  }

  lemma LumaVertApart(src: int, strd: int, plan: Plan, lines: nat, d: nat)
    requires Regular(plan, lines, 1, d) && Abs(strd) >= 2 * d
    ensures LinesApart(LumaVert(src, strd), plan)
  {
    var e := LumaVert(src, strd);
    forall m, i, n, j |
      0 <= m < |plan| && 0 <= i < |plan[m]| && 0 <= n < |plan| && 0 <= j < |plan[n]| && (m != n || i != j)
      ensures Apart(PlacesOf(e, plan, m, i), PlacesOf(e, plan, n, j))
    {
      var a, b := PlacesOf(e, plan, m, i), PlacesOf(e, plan, n, j);
      forall k, l | 0 <= k < |a| && 0 <= l < |b| ensures a[k] != b[l] {
        if a[k] == b[l] { RowAndColumn(m, k - d, n, l - d, strd); }
      }
    }
  }

  lemma LumaHorzApart(src: int, strd: int, plan: Plan, lines: nat, d: nat)
    requires Regular(plan, lines, 1, d) && Abs(strd) >= lines
    ensures LinesApart(LumaHorz(src, strd), plan)
  {
    var e := LumaHorz(src, strd);
    forall m, i, n, j |
      0 <= m < |plan| && 0 <= i < |plan[m]| && 0 <= n < |plan| && 0 <= j < |plan[n]| && (m != n || i != j)
      ensures Apart(PlacesOf(e, plan, m, i), PlacesOf(e, plan, n, j))
    {
      var a, b := PlacesOf(e, plan, m, i), PlacesOf(e, plan, n, j);
      forall k, l | 0 <= k < |a| && 0 <= l < |b| ensures a[k] != b[l] {
        if a[k] == b[l] { RowAndColumn(k - d, m, l - d, n, strd); }
      }
    }
  }

  lemma ChromaVertApart(src: int, strd: int, plan: Plan, lines: nat)
    requires Regular(plan, lines, 2, 2) && Abs(strd) >= 8
    ensures LinesApart(ChromaVert(src, strd), plan)
  {
    var e := ChromaVert(src, strd);
    forall m, i, n, j |
      0 <= m < |plan| && 0 <= i < |plan[m]| && 0 <= n < |plan| && 0 <= j < |plan[n]| && (m != n || i != j)
      ensures Apart(PlacesOf(e, plan, m, i), PlacesOf(e, plan, n, j))
    {
      var a, b := PlacesOf(e, plan, m, i), PlacesOf(e, plan, n, j);
      forall k, l | 0 <= k < |a| && 0 <= l < |b| ensures a[k] != b[l] {
        if a[k] == b[l] { RowAndColumn(m, i + (k - 2) * 2, n, j + (l - 2) * 2, strd); }
      }
    }
  }

  lemma ChromaHorzApart(src: int, strd: int, plan: Plan, lines: nat)
    requires Regular(plan, lines, 2, 2) && Abs(strd) >= 2 * lines
    ensures LinesApart(ChromaHorz(src, strd), plan)
  {
    var e := ChromaHorz(src, strd);
    forall m, i, n, j |
      0 <= m < |plan| && 0 <= i < |plan[m]| && 0 <= n < |plan| && 0 <= j < |plan[n]| && (m != n || i != j)
      ensures Apart(PlacesOf(e, plan, m, i), PlacesOf(e, plan, n, j))
    {
      var a, b := PlacesOf(e, plan, m, i), PlacesOf(e, plan, n, j);
      forall k, l | 0 <= k < |a| && 0 <= l < |b| ensures a[k] != b[l] {
        if a[k] == b[l] { RowAndColumn(k - 2, 2 * m + i, l - 2, 2 * n + j, strd); }
      }
    }
  }

  // ---------------------------------------------------------------------------------------
  // What an edge filter makes of a buffer.
  // ---------------------------------------------------------------------------------------

  /** Every line of every plane is what its filter makes of that line of the original buffer. */
  lemma EveryLineFiltered(s: seq<byte>, e: Edge, plan: Plan, n: nat, i: nat)
    requires AllFit(Jobs(e, plan), |s|) && LinesApart(e, plan) && n < |plan| && i < |plan[n]|
    ensures var at := PlacesOf(e, plan, n, i);
            && Places(at, |s|) && |at| == plan[n][i].filter.Taps()
            && Pull(Run(s, Jobs(e, plan)), at) == Apply(plan[n][i].filter, Pull(s, at))
  {
    JobsPairwiseApart(e, plan);
    var x := LineHasJob(e, plan, n, i);
    RunFiltersOriginalLines(s, Jobs(e, plan), x);
  }

  /** A sample on no line keeps its value. */
  lemma NothingElseTouched(s: seq<byte>, e: Edge, plan: Plan, x: int)
    requires AllFit(Jobs(e, plan), |s|) && 0 <= x < |s|
    requires forall n, i :: 0 <= n < |plan| && 0 <= i < |plan[n]| ==> x !in PlacesOf(e, plan, n, i)
    ensures Run(s, Jobs(e, plan))[x] == s[x]
  {
    forall k | 0 <= k < |Jobs(e, plan)| ensures x !in Jobs(e, plan)[k].at {
      var n, i := JobHasLine(e, plan, k);
    }
    RunKeepsOutside(s, Jobs(e, plan), x);
  }
}
