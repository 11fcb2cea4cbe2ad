/** The bounded one-page search, the host's check of its plan, and the web client's check of the same plan. */
module Fit {
  import opened Contracts

  const MAX_CANDIDATES: nat := 16
  const MAX_PAGES: nat := 200
  const MIN_FONT_SIZE: real := 9.0
  const MIN_HEADING_SIZE: real := 9.75
  const MIN_PAGE_MARGIN: real := 18.0

  datatype FitStatus = Fitted | AlreadyFits | NoFit | Unreadable | Cancelled | TimedOut

  datatype FitAttempt = FitAttempt(candidateIndex: nat, pageCount: nat)

  datatype FitPlan = FitPlan(
    status: FitStatus, semanticHash: string, original: Presentation,
    fitted: Option<Presentation>, attempts: seq<FitAttempt>)

  datatype FitError = CompileFailed | NoPages

  // ---- Candidates ----

  predicate IsReadable(p: Presentation) {
    && p.fontSizePt >= MIN_FONT_SIZE
    && p.lineHeightPt >= p.fontSizePt
    && p.headingSizePt >= MIN_HEADING_SIZE
    && p.pageMarginPt >= MIN_PAGE_MARGIN
    && p.moduleGapPt >= 0.0 && p.paragraphGapPt >= 0.0 && p.listGapPt >= 0.0
  }

  function Max(a: real, b: real): real { if a >= b then a else b }

  const STEPS: seq<real> := [0.0, 1.0 / 3.0, 2.0 / 3.0, 1.0]
  const SPACINGS: seq<real> := [1.0, 0.9, 0.8, 0.7]

  function Candidate(p: Presentation, step: real, spacing: real): Presentation
    requires p.fontSizePt != 0.0
  {
    AtFont(p, p.fontSizePt + (MIN_FONT_SIZE - p.fontSizePt) * step, spacing)
  }

  /** The layout with this font size: line height and headings follow the font, line height and gaps the spacing. */
  function AtFont(p: Presentation, font: real, spacing: real): Presentation
    requires p.fontSizePt != 0.0
  {
    var ratio := font / p.fontSizePt;
    p.(fontSizePt := font,
       lineHeightPt := Max(p.lineHeightPt * ratio * spacing, font),
       headingSizePt := Max(p.headingSizePt * ratio, MIN_HEADING_SIZE),
       pageMarginPt := Max(p.pageMarginPt * spacing, MIN_PAGE_MARGIN),
       moduleGapPt := p.moduleGapPt * spacing,
       paragraphGapPt := p.paragraphGapPt * spacing,
       listGapPt := p.listGapPt * spacing)
  }

  /** The k-th pair of the grid: spacings vary fastest. */
  function GridCandidate(p: Presentation, k: nat): Presentation
    requires p.fontSizePt != 0.0 && k < |STEPS| * |SPACINGS|
  {
    Candidate(p, STEPS[k / 4], SPACINGS[k % 4])
  }

  function AddNew(options: seq<Presentation>, p: Presentation): seq<Presentation> {
    if p in options then options else options + [p]
  }

  function CandidatesUpTo(p: Presentation, n: nat): (r: seq<Presentation>)
    requires p.fontSizePt != 0.0 && n <= 16
    ensures |r| <= n
    ensures n > 0 ==> |r| > 0
  {
    if n == 0 then [] else AddNew(CandidatesUpTo(p, n - 1), GridCandidate(p, n - 1))
  }

  /** The grid in order, each layout once. */
  function Candidates(p: Presentation): seq<Presentation>
    requires p.fontSizePt != 0.0
  {
    CandidatesUpTo(p, 16)
  }

  /** Row and column of the grid's k-th pair. */
  lemma GridAt(p: Presentation, i: nat, j: nat)
    requires p.fontSizePt != 0.0 && i < 4 && j < 4
    ensures GridCandidate(p, 4 * i + j) == Candidate(p, STEPS[i], SPACINGS[j])
  {
    assert (4 * i + j) / 4 == i && (4 * i + j) % 4 == j;
  }

  ghost predicate Holds(seen: set<Presentation>, result: seq<Presentation>) {
    forall p :: p in seen <==> p in result
  }

  method AddUnseen(seen: set<Presentation>, result: seq<Presentation>, value: Presentation)
    returns (seen': set<Presentation>, result': seq<Presentation>)
    requires Holds(seen, result)
    ensures Holds(seen', result') && result' == AddNew(result, value)
  {
    seen', result' := seen, result;
    if value !in seen {
      seen' := seen + {value};
      result' := result + [value];
    }
  }

  method BuildCandidates(original: Presentation) returns (result: seq<Presentation>)
    requires original.fontSizePt != 0.0
    ensures result == Candidates(original)
  {
    result := [];
    var seen: set<Presentation> := {};
    for i := 0 to 4
      invariant result == CandidatesUpTo(original, 4 * i) && Holds(seen, result)
    {
      for j := 0 to 4
        invariant result == CandidatesUpTo(original, 4 * i + j) && Holds(seen, result)
      {
        GridAt(original, i, j);
        seen, result := AddUnseen(seen, result, Candidate(original, STEPS[i], SPACINGS[j]));
      }
    }
  }

  // ---- The search ----

  /** Whether to go on, as asked before and after each compile. */
  datatype Signal = Continue | Cancel | Expire

  /** Page count of a layout, absent when it does not compile; and the signals around the k-th compile. */
  datatype Run = Run(compile: Presentation -> Option<nat>, before: nat -> Signal, after: nat -> Signal)

  function Stopped(signal: Signal): FitStatus
    requires signal != Continue
  {
    if signal == Cancel then Cancelled else TimedOut
  }

  function SearchFrom(plan: FitPlan, options: seq<Presentation>, k: nat, run: Run): Result<FitPlan, FitError>
    requires k <= |options|
    decreases |options| - k
  {
    if k == |options| then Ok(plan)
    else if run.before(k) != Continue then Ok(plan.(status := Stopped(run.before(k))))
    else
      match run.compile(options[k])
      case None => Err(CompileFailed)
      case Some(pages) =>
        if pages == 0 then Err(NoPages)
        else
          var tried := plan.(attempts := plan.attempts + [FitAttempt(k, pages)]);
          if run.after(k) != Continue then Ok(tried.(status := Stopped(run.after(k))))
          else if pages == 1 then
            Ok(tried.(status := if options[k] == plan.original then AlreadyFits else Fitted, fitted := Some(options[k])))
          else SearchFrom(tried, options, k + 1, run)
  }

  function NewPlan(hash: string, p: Presentation, status: FitStatus): FitPlan {
    FitPlan(status, hash, p, None, [])
  }

  function Search(hash: string, p: Presentation, run: Run): Result<FitPlan, FitError> {
    if !IsReadable(p) then Ok(NewPlan(hash, p, Unreadable))
    else SearchFrom(NewPlan(hash, p, NoFit), Candidates(p), 0, run)
  }

  method SolveOnePage(hash: string, p: Presentation, run: Run) returns (result: Result<FitPlan, FitError>)
    ensures result == Search(hash, p, run)
  {
    var plan := NewPlan(hash, p, NoFit);
    if !IsReadable(p) {
      plan := plan.(status := Unreadable);
      return Ok(plan);
    }
    var options := BuildCandidates(p);
    for k := 0 to |options|
      invariant plan.original == p
      invariant SearchFrom(plan, options, k, run) == Search(hash, p, run)
    {
      if run.before(k) != Continue {
        return Ok(plan.(status := Stopped(run.before(k))));
      }
      var pages := run.compile(options[k]);
      if pages.None? {
        return Err(CompileFailed);
      }
      if pages.value == 0 {
        return Err(NoPages);
      }
      plan := plan.(attempts := plan.attempts + [FitAttempt(k, pages.value)]);
      if run.after(k) != Continue {
        return Ok(plan.(status := Stopped(run.after(k))));
      }
      if pages.value == 1 {
        plan := plan.(status := if options[k] == p then AlreadyFits else Fitted);
        plan := plan.(fitted := Some(options[k]));
        return Ok(plan);
      }
    }
    return Ok(plan);
  }

  // ---- The host's check ----

  predicate AttemptsAreSound(attempts: seq<FitAttempt>) {
    && |attempts| <= MAX_CANDIDATES
    && forall i :: 0 <= i < |attempts| ==> attempts[i].candidateIndex == i && 1 <= attempts[i].pageCount <= MAX_PAGES
  }

  predicate NoneFits(attempts: seq<FitAttempt>) {
    forall i :: 0 <= i < |attempts| ==> attempts[i].pageCount != 1
  }

  predicate FittedIsSound(plan: FitPlan, options: seq<Presentation>, p: Presentation) {
    var n := |plan.attempts|;
    && n > 0 && plan.fitted.Some? && plan.attempts[n - 1].pageCount == 1
    && IsReadable(plan.fitted.value)
    && plan.attempts[n - 1].candidateIndex < |options| && options[plan.attempts[n - 1].candidateIndex] == plan.fitted.value
    && (plan.status == AlreadyFits <==> plan.fitted.value == p)
    && NoneFits(plan.attempts[..n - 1])
  }

  predicate PassesHost(hash: string, p: Presentation, plan: FitPlan) {
    && plan.semanticHash == hash && plan.original == p && AttemptsAreSound(plan.attempts)
    && if !IsReadable(p) then plan.status == Unreadable && plan.attempts == [] && plan.fitted.None?
       else
         var options := Candidates(p);
         && |plan.attempts| <= |options|
         && match plan.status
            case Fitted => FittedIsSound(plan, options, p)
            case AlreadyFits => FittedIsSound(plan, options, p)
            case NoFit =>
              plan.fitted.None? && |plan.attempts| == (if |options| <= MAX_CANDIDATES then |options| else MAX_CANDIDATES)
              && NoneFits(plan.attempts)
            case Unreadable => false
            case Cancelled => plan.fitted.None?
            case TimedOut => plan.fitted.None?
  }

  // ---- The web client's check of a plan ----

  predicate IsHexDigest(s: string) {
    |s| == 64 && forall c :: c in s ==> '0' <= c <= '9' || 'a' <= c <= 'f'
  }

  /** Everything but the seven layout lengths. */
  predicate SameButLayout(a: Presentation, b: Presentation) {
    && a.templateId == b.templateId && a.templateRevision == b.templateRevision && a.density == b.density
    && a.fontSetId == b.fontSetId && a.theme == b.theme && a.dateFormat == b.dateFormat
    && a.titleFormat == b.titleFormat && a.separator == b.separator && a.textAlign == b.textAlign
    && a.legacyOverrides == b.legacyOverrides
  }

  predicate PassesClient(plan: FitPlan) {
    var successful := plan.status == Fitted || plan.status == AlreadyFits;
    && IsHexDigest(plan.semanticHash) && AttemptsAreSound(plan.attempts)
    && (successful <==> plan.fitted.Some?)
    && (successful ==>
          && plan.attempts != [] && plan.attempts[|plan.attempts| - 1].pageCount == 1
          && IsReadable(plan.fitted.value) && SameButLayout(plan.fitted.value, plan.original))
  }

  // ---- Candidates ----

  lemma ScaledDown(x: real, factor: real)
    requires x >= 0.0 && factor >= 0.0
    ensures x * factor >= 0.0
  {
  }

  lemma CandidateIsReadable(p: Presentation, step: real, spacing: real)
    requires IsReadable(p) && 0.0 <= step <= 1.0 && 0.0 <= spacing
    ensures IsReadable(Candidate(p, step, spacing)) && SameButLayout(Candidate(p, step, spacing), p)
  {
    var spare := p.fontSizePt - MIN_FONT_SIZE;
    ScaledDown(spare, 1.0 - step);
    assert p.fontSizePt + (MIN_FONT_SIZE - p.fontSizePt) * step == MIN_FONT_SIZE + spare * (1.0 - step);
    ScaledDown(p.moduleGapPt, spacing);
    ScaledDown(p.paragraphGapPt, spacing);
    ScaledDown(p.listGapPt, spacing);
  }

  lemma GridBounds(k: nat)
    requires k < 16
    ensures 0.0 <= STEPS[k / 4] <= 1.0 && 0.0 <= SPACINGS[k % 4]
  {
  }

  predicate AllReadable(options: seq<Presentation>, p: Presentation) {
    forall o :: o in options ==> IsReadable(o) && SameButLayout(o, p)
  }

  predicate AllDistinct(options: seq<Presentation>) {
    forall i, j :: 0 <= i < j < |options| ==> options[i] != options[j]
  }

  lemma FirstOfGrid(p: Presentation)
    requires IsReadable(p)
    ensures GridCandidate(p, 0) == p
  {
    assert STEPS[0] == 0.0 && SPACINGS[0] == 1.0;
    assert (MIN_FONT_SIZE - p.fontSizePt) * 0.0 == 0.0;
    assert p.fontSizePt / p.fontSizePt == 1.0;
  }

  /** Every candidate of a readable layout is readable, changes nothing but lengths, and appears once; the first is the layout itself. */
  lemma {:induction false} CandidatesAreSound(p: Presentation, n: nat)
    requires IsReadable(p) && n <= 16
    ensures var options := CandidatesUpTo(p, n);
            AllReadable(options, p) && AllDistinct(options) && (n > 0 ==> options[0] == p)
  {
    if n > 0 {
      CandidatesAreSound(p, n - 1);
      GridBounds(n - 1);
      CandidateIsReadable(p, STEPS[(n - 1) / 4], SPACINGS[(n - 1) % 4]);
      if n == 1 {
        FirstOfGrid(p);
      }
    }
  }

  // ---- The search and the host's check ----

  predicate PagesInRange(attempts: seq<FitAttempt>) {
    forall i :: 0 <= i < |attempts| ==> attempts[i].pageCount <= MAX_PAGES
  }

  /** What the search has done before its k-th compile. */
  predicate IsUnderway(plan: FitPlan, options: seq<Presentation>, p: Presentation, k: nat, run: Run) {
    && plan.original == p && plan.status == NoFit && plan.fitted.None?
    && |plan.attempts| == k <= |options|
    && forall i :: 0 <= i < k ==>
         && plan.attempts[i].candidateIndex == i
         && run.compile(options[i]) == Some(plan.attempts[i].pageCount)
         && plan.attempts[i].pageCount > 1
  }

  /** What the search returns: where it stopped, and why. */
  predicate IsOutcome(plan: FitPlan, options: seq<Presentation>, p: Presentation, run: Run) {
    var n := |plan.attempts|;
    && plan.original == p && n <= |options|
    && (forall i :: 0 <= i < n ==>
          plan.attempts[i].candidateIndex == i && plan.attempts[i].pageCount > 0
          && run.compile(options[i]) == Some(plan.attempts[i].pageCount))
    && (n > 0 ==> NoneFits(plan.attempts[..n - 1]))
    && match plan.status
       case Fitted => n > 0 && plan.attempts[n - 1].pageCount == 1 && plan.fitted == Some(options[n - 1]) && options[n - 1] != p
       case AlreadyFits => n > 0 && plan.attempts[n - 1].pageCount == 1 && plan.fitted == Some(options[n - 1]) && options[n - 1] == p
       case NoFit => n == |options| && NoneFits(plan.attempts) && plan.fitted.None?
       case Unreadable => false
       case Cancelled => plan.fitted.None?
       case TimedOut => plan.fitted.None?
  }

  predicate IsOutcomeOf(r: Result<FitPlan, FitError>, hash: string, options: seq<Presentation>, p: Presentation, run: Run) {
    r.Ok? ==> IsOutcome(r.value, options, p, run) && r.value.semanticHash == hash
  }

  /** A search stopped by a signal, or at its end, keeps what it has. */
  lemma StoppedOutcome(plan: FitPlan, options: seq<Presentation>, p: Presentation, k: nat, run: Run, signal: Signal)
    requires IsUnderway(plan, options, p, k, run)
    ensures signal != Continue ==> IsOutcomeOf(Ok(plan.(status := Stopped(signal))), plan.semanticHash, options, p, run)
    ensures k == |options| ==> IsOutcomeOf(Ok(plan), plan.semanticHash, options, p, run)
  {
    assert k > 0 ==> forall i :: 0 <= i < k - 1 ==> plan.attempts[..k - 1][i] == plan.attempts[i];
  }

  lemma TriedStep(plan: FitPlan, options: seq<Presentation>, p: Presentation, k: nat, run: Run, pages: nat)
    requires IsUnderway(plan, options, p, k, run) && k < |options|
    requires run.compile(options[k]) == Some(pages) && pages > 1
    ensures IsUnderway(plan.(attempts := plan.attempts + [FitAttempt(k, pages)]), options, p, k + 1, run)
  {
  }

  /** The first layout on one page ends the search. */
  lemma OnePageOutcome(plan: FitPlan, options: seq<Presentation>, p: Presentation, k: nat, run: Run)
    requires IsUnderway(plan, options, p, k, run) && k < |options|
    requires run.compile(options[k]) == Some(1) && run.before(k) == Continue
    ensures IsOutcomeOf(SearchFrom(plan, options, k, run), plan.semanticHash, options, p, run)
  {
    assert (plan.attempts + [FitAttempt(k, 1)])[..k] == plan.attempts;
  }

  lemma {:induction false} SearchFromOutcome(plan: FitPlan, options: seq<Presentation>, p: Presentation, k: nat, run: Run)
    requires IsUnderway(plan, options, p, k, run)
    ensures IsOutcomeOf(SearchFrom(plan, options, k, run), plan.semanticHash, options, p, run)
    decreases |options| - k
  {
    if k == |options| || run.before(k) != Continue {
      StoppedOutcome(plan, options, p, k, run, if k == |options| then Continue else run.before(k));
    } else if run.compile(options[k]) == Some(1) {
      OnePageOutcome(plan, options, p, k, run);
    } else if run.compile(options[k]).Some? && run.compile(options[k]).value > 0 {
      var pages := run.compile(options[k]).value;
      var tried := plan.(attempts := plan.attempts + [FitAttempt(k, pages)]);
      TriedStep(plan, options, p, k, run, pages);
      if run.after(k) == Continue {
        SearchFromOutcome(tried, options, p, k + 1, run);
      } else {
        StoppedOutcome(tried, options, p, k + 1, run, run.after(k));
      }
    }
  }

  lemma OutcomePasses(hash: string, p: Presentation, plan: FitPlan, run: Run)
    requires IsReadable(p) && IsOutcome(plan, Candidates(p), p, run) && plan.semanticHash == hash
    ensures PassesHost(hash, p, plan) <==> PagesInRange(plan.attempts)
  {
    CandidatesAreSound(p, 16);
    var options, n := Candidates(p), |plan.attempts|;
    if plan.fitted.Some? {
      assert options[n - 1] in options;
    }
  }

  /** A plan from the search passes the host's check exactly when no tried layout has more than 200 pages. */
  lemma SearchPassesHost(hash: string, p: Presentation, run: Run)
    requires Search(hash, p, run).Ok?
    ensures var plan := Search(hash, p, run).value;
            PassesHost(hash, p, plan) <==> PagesInRange(plan.attempts)
  {
    if IsReadable(p) {
      SearchFromOutcome(NewPlan(hash, p, NoFit), Candidates(p), p, 0, run);
      OutcomePasses(hash, p, Search(hash, p, run).value, run);
    }
  }

  /** Whatever the host accepts, the client accepts. */
  lemma HostPlanPassesClient(hash: string, p: Presentation, plan: FitPlan)
    requires IsHexDigest(hash) && PassesHost(hash, p, plan)
    ensures PassesClient(plan)
  {
    if IsReadable(p) && plan.fitted.Some? {
      CandidatesAreSound(p, 16);
      var options := Candidates(p);
      assert options[plan.attempts[|plan.attempts| - 1].candidateIndex] in options;
    }
  }

  // ---- What the search finds ----

  /** The first candidate with one page, or the number of candidates. */
  function FirstOnePage(options: seq<Presentation>, compile: Presentation -> Option<nat>): (k: nat)
    ensures k <= |options|
    ensures k < |options| ==> compile(options[k]) == Some(1)
    ensures forall i :: 0 <= i < k ==> compile(options[i]) != Some(1)
  {
    if options == [] || compile(options[0]) == Some(1) then 0 else 1 + FirstOnePage(options[1..], compile)
  }

  predicate NeverStops(run: Run, n: nat) {
    forall k :: 0 <= k < n ==> run.before(k) == Continue && run.after(k) == Continue
  }

  predicate AllCompile(options: seq<Presentation>, compile: Presentation -> Option<nat>) {
    forall o :: o in options ==> compile(o).Some? && compile(o).value > 0
  }

  /** A successful plan proposes the first one-page candidate, whatever signals came. */
  lemma FittedIsFirstOnePage(hash: string, p: Presentation, run: Run)
    requires Search(hash, p, run).Ok? && Search(hash, p, run).value.fitted.Some?
    ensures IsReadable(p)
    ensures var plan := Search(hash, p, run).value;
            var k := FirstOnePage(Candidates(p), run.compile);
            && k < |Candidates(p)| && plan.fitted == Some(Candidates(p)[k]) && |plan.attempts| == k + 1
            && (plan.status == AlreadyFits <==> k == 0) && (plan.status == Fitted <==> k > 0)
  {
    SearchFromOutcome(NewPlan(hash, p, NoFit), Candidates(p), p, 0, run);
    CandidatesAreSound(p, 16);
    var plan := Search(hash, p, run).value;
    var options, n := Candidates(p), |plan.attempts|;
    var k := FirstOnePage(options, run.compile);
    forall i | 0 <= i < n - 1 ensures run.compile(options[i]) != Some(1) {
      assert plan.attempts[..n - 1][i] == plan.attempts[i];
    }
    assert k == n - 1;
  }

  lemma {:induction false} UnstoppedSearch(plan: FitPlan, options: seq<Presentation>, p: Presentation, k: nat, run: Run)
    requires IsUnderway(plan, options, p, k, run)
    requires NeverStops(run, |options|) && AllCompile(options, run.compile)
    ensures SearchFrom(plan, options, k, run).Ok?
    ensures SearchFrom(plan, options, k, run).value.status in {Fitted, AlreadyFits, NoFit}
    decreases |options| - k
  {
    if k < |options| {
      assert options[k] in options;
      var pages := run.compile(options[k]).value;
      if pages != 1 {
        UnstoppedSearch(plan.(attempts := plan.attempts + [FitAttempt(k, pages)]), options, p, k + 1, run);
      }
    }
  }

  /** A search that is not stopped finds a one-page layout exactly when some candidate has one page. */
  lemma SearchIsComplete(hash: string, p: Presentation, run: Run)
    requires IsReadable(p) && NeverStops(run, |Candidates(p)|) && AllCompile(Candidates(p), run.compile)
    ensures Search(hash, p, run).Ok?
    ensures Search(hash, p, run).value.fitted.Some? <==> exists o :: o in Candidates(p) && run.compile(o) == Some(1)
  {
    var plan := NewPlan(hash, p, NoFit);
    SearchFromOutcome(plan, Candidates(p), p, 0, run);
    UnstoppedSearch(plan, Candidates(p), p, 0, run);
    var found := Search(hash, p, run).value;
    if found.fitted.Some? {
      FittedIsFirstOnePage(hash, p, run);
      assert Candidates(p)[FirstOnePage(Candidates(p), run.compile)] in Candidates(p);
    } else {
      forall o | o in Candidates(p) ensures run.compile(o) != Some(1) {
        var i :| 0 <= i < |Candidates(p)| && Candidates(p)[i] == o;
        assert run.compile(Candidates(p)[i]) == Some(found.attempts[i].pageCount);
      }
    }
  }

  /** Searching again from the layout found, with the same compiler and no stop, says at once that it fits. */
  lemma FittingAgainChangesNothing(hash: string, p: Presentation, run: Run, again: Run)
    requires Search(hash, p, run).Ok? && Search(hash, p, run).value.fitted.Some?
    requires again.compile == run.compile && again.before(0) == Continue && again.after(0) == Continue
    ensures var fitted := Search(hash, p, run).value.fitted.value;
            Search(hash, fitted, again) == Ok(FitPlan(AlreadyFits, hash, fitted, Some(fitted), [FitAttempt(0, 1)]))
  {
    FittedIsFirstOnePage(hash, p, run);
    CandidatesAreSound(p, 16);
    var k := FirstOnePage(Candidates(p), run.compile);
    var fitted := Candidates(p)[k];
    assert fitted in Candidates(p);
    CandidatesAreSound(fitted, 16);
    FitsAtOnce(hash, fitted, Candidates(fitted), again);
  }

  lemma FitsAtOnce(hash: string, p: Presentation, options: seq<Presentation>, run: Run)
    requires options != [] && options[0] == p && run.compile(p) == Some(1)
    requires run.before(0) == Continue && run.after(0) == Continue
    ensures SearchFrom(NewPlan(hash, p, NoFit), options, 0, run)
            == Ok(FitPlan(AlreadyFits, hash, p, Some(p), [FitAttempt(0, 1)]))
  {
    assert NewPlan(hash, p, NoFit).attempts + [FitAttempt(0, 1)] == [FitAttempt(0, 1)];
  }
}
