/** The layouts that the one-page search tries, and their order, in figures. */
module FitGrid {
  import opened Contracts
  import opened Fit

  /** The font size at a font step: from that of the layout down to 9 points in thirds. */
  function FontAt(p: Presentation, step: nat): real {
    p.fontSizePt - (p.fontSizePt - 9.0) * (step as real) / 3.0
  }

  /** What a spacing step leaves of a length: all of it, then a tenth less with each step. */
  function ShareAt(spacing: nat): real {
    (10 - spacing) as real / 10.0
  }

  predicate IsLarger(x: real, a: real, b: real) {
    x >= a && x >= b && (x == a || x == b)
  }

  /** Line height and headings follow the font, line height, margin and gaps the share, and nothing falls below its minimum. */
  predicate IsScaled(p: Presentation, q: Presentation, font: real, share: real)
    requires p.fontSizePt != 0.0
  {
    var ratio := font / p.fontSizePt;
    && q.fontSizePt == font
    && IsLarger(q.lineHeightPt, p.lineHeightPt * ratio * share, font)
    && IsLarger(q.headingSizePt, p.headingSizePt * ratio, 9.75)
    && IsLarger(q.pageMarginPt, p.pageMarginPt * share, 18.0)
    && q.moduleGapPt == p.moduleGapPt * share
    && q.paragraphGapPt == p.paragraphGapPt * share
    && q.listGapPt == p.listGapPt * share
    && SameButLayout(q, p)
  }

  /** The layout at a font step and a spacing step. */
  predicate IsAt(p: Presentation, q: Presentation, step: nat, spacing: nat)
    requires p.fontSizePt != 0.0
  {
    IsScaled(p, q, FontAt(p, step), ShareAt(spacing))
  }

  lemma AtFontIsScaled(p: Presentation, font: real, share: real)
    requires p.fontSizePt != 0.0
    ensures IsScaled(p, AtFont(p, font, share), font, share)
  {
  }

  lemma Figures(p: Presentation, step: nat, spacing: nat)
    requires step < 4 && spacing < 4
    ensures p.fontSizePt + (MIN_FONT_SIZE - p.fontSizePt) * STEPS[step] == FontAt(p, step)
    ensures SPACINGS[spacing] == ShareAt(spacing)
  {
  }

  lemma CandidateIsAt(p: Presentation, step: nat, spacing: nat)
    requires p.fontSizePt != 0.0 && step < 4 && spacing < 4
    ensures IsAt(p, GridCandidate(p, 4 * step + spacing), step, spacing)
  {
    GridAt(p, step, spacing);
    Figures(p, step, spacing);
    AtFontIsScaled(p, FontAt(p, step), ShareAt(spacing));
    assert GridCandidate(p, 4 * step + spacing) == AtFont(p, FontAt(p, step), ShareAt(spacing));
  }

  lemma OneIsScaled(p: Presentation, a: Presentation, b: Presentation, font: real, share: real)
    requires p.fontSizePt != 0.0 && IsScaled(p, a, font, share) && IsScaled(p, b, font, share)
    ensures a == b
  {
  }

  /** The figures leave no choice. */
  lemma OneLayoutAt(p: Presentation, a: Presentation, b: Presentation, step: nat, spacing: nat)
    requires p.fontSizePt != 0.0 && IsAt(p, a, step, spacing) && IsAt(p, b, step, spacing)
    ensures a == b
  {
    OneIsScaled(p, a, b, FontAt(p, step), ShareAt(spacing));
  }

  // ---- Order ----

  /** The m-th option is the k-th pair of the grid, and all pairs before it are among the options before it. */
  predicate ComesFrom(p: Presentation, options: seq<Presentation>, m: nat, k: nat)
    requires p.fontSizePt != 0.0 && m < |options| && k < 16
  {
    options[m] == GridCandidate(p, k) && forall j :: 0 <= j < k ==> GridCandidate(p, j) in options[..m]
  }

  lemma {:induction false} AllAreTried(p: Presentation, n: nat)
    requires p.fontSizePt != 0.0 && n <= 16
    ensures forall k :: 0 <= k < n ==> GridCandidate(p, k) in CandidatesUpTo(p, n)
  {
    if n > 0 {
      AllAreTried(p, n - 1);
    }
  }

  lemma {:induction false} OptionComesFrom(p: Presentation, n: nat, m: nat) returns (k: nat)
    requires p.fontSizePt != 0.0 && n <= 16 && m < |CandidatesUpTo(p, n)|
    ensures k < n && ComesFrom(p, CandidatesUpTo(p, n), m, k)
  {
    var before, options := CandidatesUpTo(p, n - 1), CandidatesUpTo(p, n);
    if m < |before| {
      k := OptionComesFrom(p, n - 1, m);
      assert options[..m] == before[..m];
    } else {
      k := n - 1;
      AllAreTried(p, n - 1);
      assert options[..m] == before;
    }
  }

  predicate ComesBefore(step: nat, spacing: nat, step': nat, spacing': nat) {
    step < step' || (step == step' && spacing < spacing')
  }

  /** The layout at a pair has one page, and no layout at an earlier pair has. */
  ghost predicate IsFirstOnePage(p: Presentation, q: Presentation, step: nat, spacing: nat, compile: Presentation -> Option<nat>)
    requires p.fontSizePt != 0.0
  {
    && step < 4 && spacing < 4 && IsAt(p, q, step, spacing) && compile(q) == Some(1)
    && forall r: Presentation, i: nat, j: nat ::
         ComesBefore(i, j, step, spacing) && j < 4 && IsAt(p, r, i, j) ==> compile(r) != Some(1)
  }

  /** The layout proposed is the first with one page when larger fonts are tried first, and for each font wider spacings first. */
  lemma ProposalIsFirstOfGrid(hash: string, p: Presentation, run: Run) returns (step: nat, spacing: nat)
    requires Search(hash, p, run).Ok? && Search(hash, p, run).value.fitted.Some?
    ensures IsReadable(p) && IsFirstOnePage(p, Search(hash, p, run).value.fitted.value, step, spacing, run.compile)
  {
    FittedIsFirstOnePage(hash, p, run);
    var options, m := Candidates(p), FirstOnePage(Candidates(p), run.compile);
    var k := OptionComesFrom(p, 16, m);
    step, spacing := k / 4, k % 4;
    assert 4 * step + spacing == k;
    CandidateIsAt(p, step, spacing);
    forall r: Presentation, i: nat, j: nat | ComesBefore(i, j, step, spacing) && j < 4 && IsAt(p, r, i, j)
      ensures run.compile(r) != Some(1)
    {
      CandidateIsAt(p, i, j);
      OneLayoutAt(p, r, GridCandidate(p, 4 * i + j), i, j);
      TriedBefore(options, m, r, run.compile);
    }
  }

  lemma TriedBefore(options: seq<Presentation>, m: nat, r: Presentation, compile: Presentation -> Option<nat>)
    requires m == FirstOnePage(options, compile) && r in options[..m]
    ensures compile(r) != Some(1)
  {
    var i :| 0 <= i < m && options[..m][i] == r;
    assert options[i] == r;
  }
}
