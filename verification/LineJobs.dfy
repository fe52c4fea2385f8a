/** Filtering a flat sample buffer line by line. A job is one line, given by the places of its samples from the
    outermost p to the outermost q, and the filter that treats it. An edge filter is a list of jobs, run in order. */
module LineJobs {
  import opened CInt
  import opened LineFilters

  /** Different places in a buffer of `n` samples. */
  predicate Places(at: seq<int>, n: nat) {
    && (forall k :: 0 <= k < |at| ==> 0 <= at[k] < n)
    && (forall k, l :: 0 <= k < |at| && 0 <= l < |at| && k != l ==> at[k] != at[l])
  }

  datatype Job = Job(at: seq<int>, filter: Filter) {
    predicate Fits(n: nat) { |at| == filter.Taps() && Places(at, n) }
  }

  /** What is in the places `at` of `s`. */
  function Pull(s: seq<byte>, at: seq<int>): (r: seq<byte>)
    requires Places(at, |s|)
    ensures |r| == |at|
    ensures forall k {:trigger r[k]} :: 0 <= k < |at| ==> r[k] == s[at[k]]
  {
    seq(|at|, k requires 0 <= k < |at| => s[at[k]])
  }

  /** `s` with `line` put in the places `at`. */
  function Push(s: seq<byte>, at: seq<int>, line: seq<byte>): (r: seq<byte>)
    requires Places(at, |s|) && |line| == |at|
    ensures |r| == |s|
  {
    if at == [] then s
    else
      var n := |at| - 1;
      Push(s, at[..n], line[..n])[at[n] := line[n]]
  }

  lemma {:induction false} PushEffect(s: seq<byte>, at: seq<int>, line: seq<byte>)
    requires Places(at, |s|) && |line| == |at|
    ensures forall k {:trigger at[k]} :: 0 <= k < |at| ==> Push(s, at, line)[at[k]] == line[k]
    ensures forall x {:trigger Push(s, at, line)[x]} :: 0 <= x < |s| && x !in at ==> Push(s, at, line)[x] == s[x]
  {
    if at != [] {
      var n := |at| - 1;
      PushEffect(s, at[..n], line[..n]);
      assert forall k :: 0 <= k < n ==> at[..n][k] == at[k];
    }
  }

  /** Push is the only buffer that shows `line` in the places and `s` elsewhere. */
  lemma PushIs(s: seq<byte>, at: seq<int>, line: seq<byte>, r: seq<byte>)
    requires Places(at, |s|) && |line| == |at| && |r| == |s|
    requires Pull(r, at) == line
    requires forall x {:trigger r[x]} :: 0 <= x < |s| && x !in at ==> r[x] == s[x]
    ensures r == Push(s, at, line)
  {
    PushEffect(s, at, line);
    forall x | 0 <= x < |s| ensures r[x] == Push(s, at, line)[x] {
      if x in at {
        var k :| 0 <= k < |at| && at[k] == x;
        assert Pull(r, at)[k] == r[x];
      }
    }
  }

  /** One job: its line is read, filtered and written back. */
  function RunJob(s: seq<byte>, j: Job): (r: seq<byte>)
    requires j.Fits(|s|)
    ensures |r| == |s|
  {
    Push(s, j.at, Apply(j.filter, Pull(s, j.at)))
  }

  lemma RunJobEffect(s: seq<byte>, j: Job)
    requires j.Fits(|s|)
    ensures Pull(RunJob(s, j), j.at) == Apply(j.filter, Pull(s, j.at))
    ensures forall x {:trigger RunJob(s, j)[x]} :: 0 <= x < |s| && x !in j.at ==> RunJob(s, j)[x] == s[x]
  {
    PushEffect(s, j.at, Apply(j.filter, Pull(s, j.at)));
  }

  predicate AllFit(jobs: seq<Job>, n: nat) { forall i :: 0 <= i < |jobs| ==> jobs[i].Fits(n) }

  lemma PartsFit(a: seq<Job>, b: seq<Job>, n: nat)
    requires AllFit(a + b, n)
    ensures AllFit(a, n) && AllFit(b, n)
  {
    assert forall i :: 0 <= i < |a| ==> (a + b)[i] == a[i];
    assert forall i :: 0 <= i < |b| ==> (a + b)[|a| + i] == b[i];
  }

  function Run(s: seq<byte>, jobs: seq<Job>): (r: seq<byte>)
    requires AllFit(jobs, |s|)
    ensures |r| == |s|
  {
    if jobs == [] then s else RunJob(Run(s, jobs[..|jobs| - 1]), jobs[|jobs| - 1])
  }

  lemma {:induction false} RunAppend(s: seq<byte>, a: seq<Job>, b: seq<Job>)
    requires AllFit(a, |s|) && AllFit(b, |s|)
    ensures AllFit(a + b, |s|) && Run(s, a + b) == Run(Run(s, a), b)
  {
    if b == [] {
      assert a + b == a;
    } else {
      var b' := b[..|b| - 1];
      RunAppend(s, a, b');
      assert (a + b)[..|a + b| - 1] == a + b' && (a + b)[|a + b| - 1] == b[|b| - 1];
    }
  }

  /** Jobs change nothing outside their lines. */
  lemma {:induction false} RunKeepsOutside(s: seq<byte>, jobs: seq<Job>, x: int)
    requires AllFit(jobs, |s|) && 0 <= x < |s| && forall i :: 0 <= i < |jobs| ==> x !in jobs[i].at
    ensures Run(s, jobs)[x] == s[x]
  {
    if jobs != [] {
      var front := jobs[..|jobs| - 1];
      RunKeepsOutside(s, front, x);
      RunJobEffect(Run(s, front), jobs[|jobs| - 1]);
    }
  }

  /** No place is in both lists. */
  predicate Apart(a: seq<int>, b: seq<int>) { forall k :: 0 <= k < |a| ==> a[k] !in b }

  predicate PairwiseApart(jobs: seq<Job>) {
    forall i, j {:trigger jobs[i], jobs[j]} ::
      0 <= i < |jobs| && 0 <= j < |jobs| && i != j ==> Apart(jobs[i].at, jobs[j].at)
  }

  lemma ApartJobKeepsLine(s: seq<byte>, other: Job, at: seq<int>)
    requires other.Fits(|s|) && Places(at, |s|) && Apart(at, other.at)
    ensures Pull(RunJob(s, other), at) == Pull(s, at)
  {
    RunJobEffect(s, other);
  }

  lemma {:induction false} ApartJobsKeepLine(s: seq<byte>, jobs: seq<Job>, at: seq<int>)
    requires AllFit(jobs, |s|) && Places(at, |s|) && forall i :: 0 <= i < |jobs| ==> Apart(at, jobs[i].at)
    ensures Pull(Run(s, jobs), at) == Pull(s, at)
  {
    if jobs != [] {
      var front := jobs[..|jobs| - 1];
      ApartJobsKeepLine(s, front, at);
      ApartJobKeepsLine(Run(s, front), jobs[|jobs| - 1], at);
    }
  }

  /** When no two lines share a sample, every line comes out as its filter makes it from the line in the
      original buffer, whatever the order of the jobs. */
  lemma {:induction false} RunFiltersOriginalLines(s: seq<byte>, jobs: seq<Job>, i: nat)
    requires AllFit(jobs, |s|) && PairwiseApart(jobs) && i < |jobs|
    ensures Pull(Run(s, jobs), jobs[i].at) == Apply(jobs[i].filter, Pull(s, jobs[i].at))
  {
    hide RunJob, Push, Apply;
    var front, last := jobs[..|jobs| - 1], jobs[|jobs| - 1];
    if i < |front| {
      RunFiltersOriginalLines(s, front, i);
      ApartJobKeepsLine(Run(s, front), last, jobs[i].at);
    } else {
      ApartJobsKeepLine(s, front, last.at);
      RunJobEffect(Run(s, front), last);
    }
  }

  /** Two lists with the same jobs, each without overlaps, leave the same buffer. */
  lemma RunOrderIrrelevant(s: seq<byte>, a: seq<Job>, b: seq<Job>)
    requires AllFit(a, |s|) && AllFit(b, |s|) && PairwiseApart(a) && PairwiseApart(b)
    requires forall j :: j in a <==> j in b
    ensures Run(s, a) == Run(s, b)
  {
    forall x | 0 <= x < |s| ensures Run(s, a)[x] == Run(s, b)[x] {
      if i :| 0 <= i < |a| && x in a[i].at {
        assert a[i] in b;
        var i' :| 0 <= i' < |b| && b[i'] == a[i];
        SameSample(s, a, i, b, i', x);
      } else {
        forall i | 0 <= i < |b| ensures x !in b[i].at { assert b[i] in a; }
        RunKeepsOutside(s, a, x);
        RunKeepsOutside(s, b, x);
      }
    }
  }

  lemma SameSample(s: seq<byte>, a: seq<Job>, i: nat, b: seq<Job>, i': nat, x: int)
    requires AllFit(a, |s|) && AllFit(b, |s|) && PairwiseApart(a) && PairwiseApart(b)
    requires i < |a| && i' < |b| && a[i] == b[i'] && x in a[i].at && 0 <= x < |s|
    ensures Run(s, a)[x] == Run(s, b)[x]
  {
    var at := a[i].at;
    var k :| 0 <= k < |at| && at[k] == x;
    RunFiltersOriginalLines(s, a, i);
    RunFiltersOriginalLines(s, b, i');
    assert Pull(Run(s, a), at)[k] == Run(s, a)[x] && Pull(Run(s, b), at)[k] == Run(s, b)[x];
  }

  // ---------------------------------------------------------------------------------------
  // Seeing a buffer through a renumbering of its samples: `Pull(s, at)` shows sample `at[x]` of `s` at place x.
  // ---------------------------------------------------------------------------------------

  /** `view` is the same line as `job`, seen through the renumbering. */
  predicate SameLine(view: Job, job: Job, at: seq<int>) {
    && view.filter == job.filter && |job.at| == |view.at|
    && view.Fits(|at|)
    && forall k {:trigger view.at[k]} {:trigger job.at[k]} :: 0 <= k < |view.at| ==> at[view.at[k]] == job.at[k]
  }

  /** Filtering a line and then looking is looking first and filtering the line seen. */
  lemma ViewOfJob(s: seq<byte>, at: seq<int>, view: Job, job: Job)
    requires Places(at, |s|) && job.Fits(|s|) && SameLine(view, job, at)
    ensures Pull(RunJob(s, job), at) == RunJob(Pull(s, at), view)
  {
    var t := RunJob(s, job);
    RunJobEffect(s, job);
    assert Pull(Pull(s, at), view.at) == Pull(s, job.at);
    assert Pull(Pull(t, at), view.at) == Pull(t, job.at);
    forall x | 0 <= x < |at| && x !in view.at ensures Pull(t, at)[x] == Pull(s, at)[x] {
      HiddenPlace(at, view, job, x);
    }
    PushIs(Pull(s, at), view.at, Apply(job.filter, Pull(s, job.at)), Pull(t, at));
  }

  lemma HiddenPlace(at: seq<int>, view: Job, job: Job, x: int)
    requires SameLine(view, job, at) && 0 <= x < |at| && x !in view.at
    requires forall k, l :: 0 <= k < |at| && 0 <= l < |at| && k != l ==> at[k] != at[l]
    ensures at[x] !in job.at
  {
    forall k | 0 <= k < |job.at| ensures job.at[k] != at[x] {
      assert view.at[k] in view.at;
    }
  }

  predicate SameLines(view: seq<Job>, job: seq<Job>, at: seq<int>) {
    |view| == |job| && forall i :: 0 <= i < |view| ==> SameLine(view[i], job[i], at)
  }

  /** The same for a list of jobs, overlapping or not. */
  lemma {:induction false} ViewOfRun(s: seq<byte>, at: seq<int>, view: seq<Job>, job: seq<Job>)
    requires Places(at, |s|) && AllFit(job, |s|) && SameLines(view, job, at)
    ensures AllFit(view, |at|) && Pull(Run(s, job), at) == Run(Pull(s, at), view)
  {
    if job != [] {
      var n := |job| - 1;
      ViewOfRun(s, at, view[..n], job[..n]);
      ViewOfJob(Run(s, job[..n]), at, view[n], job[n]);
    }
  }

  // ---------------------------------------------------------------------------------------
  // The same line walked from the other side.
  // ---------------------------------------------------------------------------------------

  function ReversePlaces(at: seq<int>): (r: seq<int>)
    ensures |r| == |at| && forall k {:trigger r[k]} :: 0 <= k < |at| ==> r[k] == at[|at| - 1 - k]
  {
    seq(|at|, k requires 0 <= k < |at| => at[|at| - 1 - k])
  }

  function Flip(j: Job): Job { Job(ReversePlaces(j.at), j.filter) }

  lemma ReverseTwice(line: Line)
    ensures Reverse(Reverse(line)) == line
  {
  }

  lemma SamePlacesReversed(at: seq<int>, x: int)
    ensures x in at <==> x in ReversePlaces(at)
  {
    var r := ReversePlaces(at);
    if x in at {
      var k :| 0 <= k < |at| && at[k] == x;
      assert r[|at| - 1 - k] == x;
    }
  }

  /** If the filter does not care which side is called p, the direction of the walk does not matter. */
  lemma FlippedJob(s: seq<byte>, j: Job)
    requires j.Fits(|s|)
    requires Apply(j.filter, Reverse(Pull(s, j.at))) == Reverse(Apply(j.filter, Pull(s, j.at)))
    ensures Flip(j).Fits(|s|) && RunJob(s, Flip(j)) == RunJob(s, j)
  {
    PullReversed(s, j.at);
    var f := Flip(j);
    var r, line := RunJob(s, f), Apply(j.filter, Pull(s, j.at));
    RunJobEffect(s, f);
    PullReversed(r, j.at);
    SameReversed(Pull(r, j.at), line);
    OutsideFlipped(s, j, r);
    PushIs(s, j.at, line, r);
  }

  lemma OutsideFlipped(s: seq<byte>, j: Job, r: seq<byte>)
    requires |r| == |s| && forall x {:trigger r[x]} :: 0 <= x < |s| && x !in ReversePlaces(j.at) ==> r[x] == s[x]
    ensures forall x {:trigger r[x]} :: 0 <= x < |s| && x !in j.at ==> r[x] == s[x]
  {
    forall x | 0 <= x < |s| && x !in j.at ensures r[x] == s[x] { SamePlacesReversed(j.at, x); }
  }

  lemma SameReversed(a: Line, b: Line)
    requires Reverse(a) == Reverse(b)
    ensures a == b
  {
    ReverseTwice(a);
    ReverseTwice(b);
  }

  lemma PullReversed(s: seq<byte>, at: seq<int>)
    requires Places(at, |s|)
    ensures Places(ReversePlaces(at), |s|) && Pull(s, ReversePlaces(at)) == Reverse(Pull(s, at))
  {
  }
}
