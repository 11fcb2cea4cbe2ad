/** Which plans the host's check lets through: those that some search gives, and stopped ones that no search gives. */
module FitVerdict {
  import opened Contracts
  import opened Fit

  /** Some compiler and some signals make the search give this plan. */
  ghost predicate CouldCome(hash: string, p: Presentation, plan: FitPlan) {
    exists run: Run :: Search(hash, p, run) == Ok(plan)
  }

  /** No layout but the last one tried has one page: a search ends at the first that has. */
  predicate EndsAtOnePage(plan: FitPlan) {
    plan.attempts != [] ==> NoneFits(plan.attempts[..|plan.attempts| - 1])
  }

  // ---- A run for a plan ----

  function PagesOf(options: seq<Presentation>, attempts: seq<FitAttempt>, o: Presentation): Option<nat> {
    if options == [] || attempts == [] then None
    else if options[0] == o then Some(attempts[0].pageCount)
    else PagesOf(options[1..], attempts[1..], o)
  }

  lemma {:induction false} PagesOfAttempt(options: seq<Presentation>, attempts: seq<FitAttempt>, i: nat)
    requires AllDistinct(options) && |attempts| <= |options| && i < |attempts|
    ensures PagesOf(options, attempts, options[i]) == Some(attempts[i].pageCount)
  {
    if i > 0 {
      assert options[0] != options[i] && options[i] == options[1..][i - 1];
      PagesOfAttempt(options[1..], attempts[1..], i - 1);
    }
  }

  function StopSignal(status: FitStatus): Signal {
    match status
    case Cancelled => Cancel
    case TimedOut => Expire
    case _ => Continue
  }

  /** Compiles as the plan says, and stops where the plan stops. */
  function RunFor(plan: FitPlan, options: seq<Presentation>): Run {
    var n, signal := |plan.attempts|, StopSignal(plan.status);
    Run(o => PagesOf(options, plan.attempts, o),
        k => if n == 0 then signal else Continue,
        k => if k + 1 == n then signal else Continue)
  }

  /** The plan after its first k attempts. */
  function Begun(plan: FitPlan, k: nat): FitPlan
    requires k <= |plan.attempts|
  {
    FitPlan(NoFit, plan.semanticHash, plan.original, None, plan.attempts[..k])
  }

  lemma NextAttempt(plan: FitPlan, options: seq<Presentation>, k: nat)
    requires AllDistinct(options) && |plan.attempts| <= |options| && AttemptsAreSound(plan.attempts)
    requires k < |plan.attempts|
    ensures RunFor(plan, options).compile(options[k]) == Some(plan.attempts[k].pageCount)
    ensures Begun(plan, k).(attempts := Begun(plan, k).attempts + [FitAttempt(k, plan.attempts[k].pageCount)]) == Begun(plan, k + 1)
  {
    PagesOfAttempt(options, plan.attempts, k);
    assert plan.attempts[..k + 1] == plan.attempts[..k] + [plan.attempts[k]];
  }

  /** A plan that the host accepts and that ends at its first page is replayed from wherever it has come to. */
  lemma {:induction false} Replays(hash: string, p: Presentation, plan: FitPlan, k: nat)
    requires IsReadable(p) && PassesHost(hash, p, plan) && EndsAtOnePage(plan) && k <= |plan.attempts|
    requires k == |plan.attempts| ==> k == 0 || plan.status == NoFit
    ensures SearchFrom(Begun(plan, k), Candidates(p), k, RunFor(plan, Candidates(p))) == Ok(plan)
    decreases |plan.attempts| - k
  {
    var options, n := Candidates(p), |plan.attempts|;
    CandidatesAreSound(p, 16);
    if k < n {
      NextAttempt(plan, options, k);
      if k + 1 < n {
        assert plan.attempts[k] == plan.attempts[..n - 1][k];
        Replays(hash, p, plan, k + 1);
      } else {
        assert plan.attempts[..n] == plan.attempts;
        LastAttempt(hash, p, plan);
      }
    } else {
      assert plan.attempts[..n] == plan.attempts;
    }
  }

  lemma LastAttempt(hash: string, p: Presentation, plan: FitPlan)
    requires IsReadable(p) && PassesHost(hash, p, plan) && EndsAtOnePage(plan) && plan.attempts != []
    ensures var n := |plan.attempts|;
            SearchFrom(Begun(plan, n - 1), Candidates(p), n - 1, RunFor(plan, Candidates(p))) == Ok(plan)
  {
    var options, n := Candidates(p), |plan.attempts|;
    CandidatesAreSound(p, 16);
    NextAttempt(plan, options, n - 1);
    assert plan.attempts[..n] == plan.attempts;
  }

  lemma PassesAndCouldCome(hash: string, p: Presentation, plan: FitPlan)
    requires PassesHost(hash, p, plan) && EndsAtOnePage(plan)
    ensures CouldCome(hash, p, plan)
  {
    var run := RunFor(plan, if IsReadable(p) then Candidates(p) else []);
    if IsReadable(p) {
      CandidatesAreSound(p, 16);
      Replays(hash, p, plan, 0);
      assert Begun(plan, 0) == NewPlan(hash, p, NoFit);
    }
    assert Search(hash, p, run) == Ok(plan);
  }

  lemma ComesAndEnds(hash: string, p: Presentation, plan: FitPlan)
    requires CouldCome(hash, p, plan)
    ensures EndsAtOnePage(plan) && (PassesHost(hash, p, plan) <==> PagesInRange(plan.attempts))
  {
    var run: Run :| Search(hash, p, run) == Ok(plan);
    SearchPassesHost(hash, p, run);
    if IsReadable(p) {
      SearchFromOutcome(NewPlan(hash, p, NoFit), Candidates(p), p, 0, run);
    }
  }

  /**
   * Of the plans the host's check lets through, a search gives exactly those with no one-page layout before the last
   * one tried; every plan of a search within 200 pages is let through.
   */
  lemma AcceptedCouldComeExactlyWhen(hash: string, p: Presentation, plan: FitPlan)
    ensures PassesHost(hash, p, plan) && EndsAtOnePage(plan) <==> CouldCome(hash, p, plan) && PagesInRange(plan.attempts)
  {
    if PassesHost(hash, p, plan) && EndsAtOnePage(plan) {
      PassesAndCouldCome(hash, p, plan);
    }
    if CouldCome(hash, p, plan) {
      ComesAndEnds(hash, p, plan);
    }
  }

  /** What the check lets through besides are stopped plans that went on behind a layout with one page. */
  lemma OtherwiseItWasStopped(hash: string, p: Presentation, plan: FitPlan)
    requires PassesHost(hash, p, plan) && !CouldCome(hash, p, plan)
    ensures plan.status == Cancelled || plan.status == TimedOut
    ensures exists i :: 0 <= i < |plan.attempts| - 1 && plan.attempts[i].pageCount == 1
  {
    if EndsAtOnePage(plan) {
      PassesAndCouldCome(hash, p, plan);
    }
    var n := |plan.attempts|;
    var i :| 0 <= i < n - 1 && plan.attempts[..n - 1][i].pageCount == 1;
    assert plan.attempts[i].pageCount == 1;
  }

  /** Such a plan exists for every readable layout with at least two candidates. */
  lemma StoppedBehindOnePagePasses(hash: string, p: Presentation) returns (plan: FitPlan)
    requires IsReadable(p) && |Candidates(p)| >= 2
    ensures PassesHost(hash, p, plan) && !CouldCome(hash, p, plan)
  {
    plan := FitPlan(Cancelled, hash, p, None, [FitAttempt(0, 1), FitAttempt(1, 2)]);
    assert plan.attempts[..1][0].pageCount == 1;
    AcceptedCouldComeExactlyWhen(hash, p, plan);
  }
}
