/** The learning loops. */
module Learning {
  import opened Words
  import opened Grids
  import opened Pictures
  import opened Hardware
  import opened Semantics
  import opened Driving

  // ------------------------------------------------------------------------------------------------------------------
  // Learning is an iteration on four values
  // ------------------------------------------------------------------------------------------------------------------

  /** What a learning loop does not change: the input and ideal images and the run parameters. */
  datatype Setting = Setting(width: u16, height: u16, u: Picture, ideal: Picture, ts: u16, iterations: u16, rate: u16)

  /** What it does change: templates 1 and 2, the state image, and the processor's hidden state. */
  datatype Learnt = Learnt(t1: Template, t2: Template, x: Picture, hidden: nat)

  function SettingOf(w: World): Setting
    requires |w.pics| == SLOTS
  {
    Setting(w.width, w.height, w.pics[0], w.pics[2], w.cnn.ts, w.cnn.iterations, w.cnn.learnRate)
  }

  function LearntOf(w: World): Learnt
    requires |w.pics| == SLOTS && |w.templates| == TEMPLATES
  {
    Learnt(w.templates[1], w.templates[2], w.pics[1], w.hw.hidden)
  }

  /** The processor's answer to one template in the current state. */
  function Answer(chip: Chip, s: Setting, l: Learnt, t: Template): Outcome {
    Result(chip, l.hidden, s.width, s.height, s.ts, s.iterations, t, s.u, l.x, s.ideal)
  }

  function After(s: Setting, l: Learnt, out: Outcome): Learnt {
    l.(x := Unflatten(out.x, s.width, s.height), hidden := out.hidden)
  }

  /** One turn: run with template 1, scale the errors of that run, add them to template 1. The multilayer turn then runs
      with template 2 on the new image and adds the same errors to template 2. */
  function Turn(chip: Chip, kind: Learner, s: Setting, l: Learnt): Learnt {
    var out := Answer(chip, s, l, l.t1);
    var e := ScaledErrors(out.errors, s.rate, s.width * s.height);
    var m := After(s, l, out);
    match kind
    case Learn1d => m.(t1 := Updated1d(l.t1, e))
    case Learn2d => m.(t1 := Updated2d(l.t1, e))
    case LearnMultilayer =>
      var m1 := m.(t1 := Updated1d(l.t1, e));
      After(s, m1, Answer(chip, s, m1, l.t2)).(t2 := Updated1d(l.t2, e))
  }

  function Turns(chip: Chip, kind: Learner, s: Setting, l: Learnt, n: nat): Learnt {
    if n == 0 then l else Turn(chip, kind, s, Turns(chip, kind, s, l, n - 1))
  }

  /** r is w with the learnt parts replaced by l, up to the device, the monitor and the error record. */
  predicate LearntIs(w: World, l: Learnt, r: World)
    requires |w.pics| == SLOTS && |w.templates| == TEMPLATES
  {
    && r.hw.hidden == l.hidden
    && r == w.(pics := w.pics[1 := l.x], templates := w.templates[1 := l.t1][2 := l.t2],
               errors := r.errors, hw := r.hw, monitor := r.monitor)
  }

  lemma TrialMeaning(chip: Chip, w: World, t: nat)
    requires w.Valid(chip) && t < TEMPLATES && Fits(w.width, w.height, chip.cells)
    ensures var r := Trial(chip, w, t);
      var out := Answer(chip, SettingOf(w), LearntOf(w), w.templates[t]);
      && r.pics == w.pics[1 := Unflatten(out.x, w.width, w.height)]
      && r.hw.errors == out.errors && r.hw.hidden == out.hidden
      && r == w.(pics := r.pics, hw := r.hw, monitor := r.monitor)
      && SettingOf(r) == SettingOf(w)
  {
    hide Drive;
    DriverMeaning(chip, w, 0, 1, 2, t, w.cnn.iterations, w.cnn.ts);
  }

  lemma TurnMeaning(chip: Chip, kind: Learner, w: World)
    requires w.Valid(chip) && Fits(w.width, w.height, chip.cells)
    ensures LearntIs(w, Turn(chip, kind, SettingOf(w), LearntOf(w)), Step(chip, kind, w))
    ensures SettingOf(Step(chip, kind, w)) == SettingOf(w)
  {
    hide Drive, Answer, Trial, Updated1d, Updated2d, ScaledErrors, Unflatten;
    TrialMeaning(chip, w, 1);
    if kind.LearnMultilayer? {
      TrialMeaning(chip, Step3(chip, w), 2);
    }
  }

  lemma Counts(chip: Chip, w: World)
    requires w.Valid(chip)
    ensures |w.pics| == SLOTS && |w.templates| == TEMPLATES
  {
  }

  lemma LearntIsReflexive(w: World)
    requires |w.pics| == SLOTS && |w.templates| == TEMPLATES
    ensures LearntIs(w, LearntOf(w), w)
  {
    assert w.templates[1 := w.templates[1]][2 := w.templates[2]] == w.templates;
  }

  lemma LearntIsTransitive(w: World, l: Learnt, m: World, k: Learnt, r: World)
    requires |w.pics| == SLOTS && |w.templates| == TEMPLATES && LearntIs(w, l, m) && LearntIs(m, k, r)
    ensures LearntIs(w, k, r)
  {
  }

  lemma LearntIsExact(w: World, l: Learnt, r: World)
    requires |w.pics| == SLOTS && |w.templates| == TEMPLATES && LearntIs(w, l, r)
    ensures |r.pics| == SLOTS && |r.templates| == TEMPLATES && LearntOf(r) == l
  {
  }

  /** For every processor and every number of turns, the learning loops of algorithm3, algorithm4 and algorithm5 are the
      iteration of `Turn`: nothing else in the store takes part, and nothing else changes. */
  lemma {:induction false} LearningIsIteration(chip: Chip, kind: Learner, w: World, n: nat)
    requires w.Valid(chip) && Fits(w.width, w.height, chip.cells)
    ensures LearntIs(w, Turns(chip, kind, SettingOf(w), LearntOf(w), n), Learn(chip, kind, w, n))
    ensures SettingOf(Learn(chip, kind, w, n)) == SettingOf(w)
  {
    hide Learn, Step, Turn, World.Valid;
    Counts(chip, w);
    LearnZero(chip, kind, w);
    LearntIsReflexive(w);
    if n > 0 {
      LearningIsIteration(chip, kind, w, n - 1);
      var before := Learn(chip, kind, w, n - 1);
      LearnNext(chip, kind, w, n - 1);
      Counts(chip, before);
      LearntIsExact(w, Turns(chip, kind, SettingOf(w), LearntOf(w), n - 1), before);
      TurnMeaning(chip, kind, before);
      var l := Turns(chip, kind, SettingOf(w), LearntOf(w), n - 1);
      LearntIsTransitive(w, l, before, Turn(chip, kind, SettingOf(w), l), Step(chip, kind, before));
    }
  }

  /** The state of the learnt values when a learning algorithm begins. */
  function Beginning(kind: Learner, w: World): Learnt
    requires |w.pics| == SLOTS && |w.templates| == TEMPLATES
  {
    Learnt(Same(0), if kind.LearnMultilayer? then Same(0) else w.templates[2], w.pics[1], w.hw.hidden)
  }

  /** The three learning algorithms as a whole: template 1 (and 2, in multilayer learning) starts from zero, the state
      image from what the host put in slot 1, and `learn_loop` turns are made. */
  lemma LearningAlgorithmMeaning(chip: Chip, kind: Learner, w: World)
    requires w.Valid(chip) && Fits(w.width, w.height, chip.cells)
    ensures var r := LearningAlgorithm(chip, kind, w);
      var l := Turns(chip, kind, SettingOf(w), Beginning(kind, w), w.cnn.learnLoop);
      && r.hw.hidden == l.hidden
      && r == w.(pics := w.pics[1 := l.x], templates := w.templates[1 := l.t1][2 := l.t2],
                 errors := r.errors, hw := r.hw, monitor := r.monitor, sent := w.sent + [2, 2])
  {
    hide Learn, Turns;
    LearningIsIteration(chip, kind, Prepared(chip, kind, w), w.cnn.learnLoop);
  }

  // ------------------------------------------------------------------------------------------------------------------
  // What learning depends on, for images of any size
  // ------------------------------------------------------------------------------------------------------------------

  /** Two states that a learning loop cannot tell apart. Only multilayer learning looks at template 2. */
  ghost predicate LearnAlike(kind: Learner, w: World, v: World)
    requires |w.pics| == SLOTS && |w.templates| == TEMPLATES && |v.pics| == SLOTS && |v.templates| == TEMPLATES
  {
    && SettingOf(w) == SettingOf(v)
    && w.pics[1] == v.pics[1] && w.templates[1] == v.templates[1] && w.hw.hidden == v.hw.hidden
    && (kind.LearnMultilayer? ==> w.templates[2] == v.templates[2])
  }

  lemma TrialFrame(chip: Chip, w: World, t: nat)
    requires w.Valid(chip) && t < TEMPLATES
    ensures var r := Trial(chip, w, t);
      && |r.pics| == SLOTS
      && r == w.(pics := w.pics[1 := r.pics[1]], hw := r.hw, monitor := DriverSeen(w.monitor, w.width, w.height))
  {
    hide Drive;
    DriverFrame(chip, w, 0, 1, 2, t, w.cnn.iterations, w.cnn.ts);
  }

  lemma TrialAgrees(chip: Chip, kind: Learner, w: World, v: World, t: nat)
    requires w.Valid(chip) && v.Valid(chip) && LearnAlike(kind, w, v)
    requires t == 1 || (t == 2 && kind.LearnMultilayer?)
    ensures var r, q := Trial(chip, w, t), Trial(chip, v, t);
      && |r.pics| == |q.pics| == SLOTS && r.templates == w.templates && q.templates == v.templates
      && |r.templates| == |q.templates| == TEMPLATES
      && LearnAlike(kind, r, q) && r.hw.errors == q.hw.errors && r.errors == w.errors && q.errors == v.errors
  {
    hide Drive;
    DriveDependsOnly(chip, w, v, 0, 1, 2, t, w.cnn.iterations, w.cnn.ts);
    TrialFrame(chip, w, t);
    TrialFrame(chip, v, t);
  }

  lemma StepAgrees(chip: Chip, kind: Learner, w: World, v: World)
    requires w.Valid(chip) && v.Valid(chip) && LearnAlike(kind, w, v)
    ensures var r, q := Step(chip, kind, w), Step(chip, kind, v);
      && |r.pics| == |q.pics| == SLOTS && |r.templates| == |q.templates| == TEMPLATES
      && LearnAlike(kind, r, q) && r.errors == q.errors && r.hw.errors == q.hw.errors
      && (w.templates[2] == v.templates[2] ==> r.templates[2] == q.templates[2])
  {
    hide Trial, ScaledErrors, Updated1d, Updated2d;
    TrialAgrees(chip, kind, w, v, 1);
    if kind.LearnMultilayer? {
      TrialAgrees(chip, kind, Step3(chip, w), Step3(chip, v), 2);
    }
  }

  /** For images of any size, and whatever the RAMs and the other slots and templates hold: two states that agree on the
      setting and on the learnt values agree on the learnt values after any number of turns, and on the errors. */
  lemma {:induction false} LearningDependsOnly(chip: Chip, kind: Learner, w: World, v: World, n: nat)
    requires w.Valid(chip) && v.Valid(chip) && LearnAlike(kind, w, v)
    ensures var r, q := Learn(chip, kind, w, n), Learn(chip, kind, v, n);
      && |r.pics| == |q.pics| == SLOTS && |r.templates| == |q.templates| == TEMPLATES
      && LearnAlike(kind, r, q)
      && (LearntOf(w) == LearntOf(v) ==> LearntOf(r) == LearntOf(q))
      && (n > 0 ==> r.errors == q.errors && r.hw.errors == q.hw.errors)
  {
    hide Learn, Step, World.Valid;
    Counts(chip, w);
    Counts(chip, v);
    LearnZero(chip, kind, w);
    LearnZero(chip, kind, v);
    if n > 0 {
      LearningDependsOnly(chip, kind, w, v, n - 1);
      LearnNext(chip, kind, w, n - 1);
      LearnNext(chip, kind, v, n - 1);
      StepAgrees(chip, kind, Learn(chip, kind, w, n - 1), Learn(chip, kind, v, n - 1));
    }
  }

  /** The algorithms as a whole depend on less: the templates they learn start from zero. */
  lemma LearningAlgorithmDependsOnly(chip: Chip, kind: Learner, w: World, v: World)
    requires w.Valid(chip) && v.Valid(chip) && SettingOf(w) == SettingOf(v) && w.cnn.learnLoop == v.cnn.learnLoop
    requires w.pics[1] == v.pics[1] && w.hw.hidden == v.hw.hidden
    ensures var r, q := LearningAlgorithm(chip, kind, w), LearningAlgorithm(chip, kind, v);
      && |r.pics| == |q.pics| == SLOTS && |r.templates| == |q.templates| == TEMPLATES
      && r.pics[1] == q.pics[1] && r.templates[1] == q.templates[1] && r.hw.hidden == q.hw.hidden
      && (kind.LearnMultilayer? ==> r.templates[2] == q.templates[2])
  {
    hide Learn, World.Valid;
    Counts(chip, w);
    Counts(chip, v);
    LearningDependsOnly(chip, kind, Prepared(chip, kind, w), Prepared(chip, kind, v), w.cnn.learnLoop);
  }

  // ------------------------------------------------------------------------------------------------------------------
  // What the coefficients become: sums of errors
  // ------------------------------------------------------------------------------------------------------------------

  function Updated(kind: Learner, t: Template, e: Errors<s16>): Template {
    if kind.Learn2d? then Updated2d(t, e) else Updated1d(t, e)
  }

  /** A template after a sequence of updates. */
  function UpdatedBy(kind: Learner, t: Template, es: seq<Errors<s16>>): Template {
    if es == [] then t else Updated(kind, UpdatedBy(kind, t, es[..|es| - 1]), es[|es| - 1])
  }

  predicate InTemplate(loc: char, i: nat, j: nat) {
    IsLocation(loc) && (loc == 'A' || loc == 'B' ==> i < 3 && j < 3)
  }

  /** The error an update applies to one coefficient: in 1-D learning only the middle rows move. */
  function Applied(kind: Learner, e: Errors<s16>, loc: char, i: nat, j: nat): s16
    requires InTemplate(loc, i, j)
  {
    if loc == 'I' then e.i
    else if loc == 'x' || loc == 'u' then 0
    else if !kind.Learn2d? && i != 1 then 0
    else if loc == 'A' then e.x.At(i, j)
    else e.u.At(i, j)
  }

  /** The exact sum of the errors applied to one coefficient. */
  function Total(kind: Learner, es: seq<Errors<s16>>, loc: char, i: nat, j: nat): int
    requires InTemplate(loc, i, j)
  {
    if es == [] then 0 else Total(kind, es[..|es| - 1], loc, i, j) + Applied(kind, es[|es| - 1], loc, i, j)
  }

  /** One update adds the applied error to every coefficient, wrapping at 16 bits. */
  lemma UpdateAdds(kind: Learner, t: Template, e: Errors<s16>, loc: char, i: nat, j: nat)
    requires InTemplate(loc, i, j)
    ensures CoeffAt(Updated(kind, t, e), loc, i, j) == S16(CoeffAt(t, loc, i, j) + Applied(kind, e, loc, i, j))
  {
    hide S16;
    S16OfNarrow(CoeffAt(t, loc, i, j));
  }

  /** After any sequence of updates a coefficient is its starting value plus the exact sum of the errors applied to it,
      reduced to 16 bits once, whatever wrapped on the way. */
  lemma {:induction false} CoefficientIsWrappedSum(
      kind: Learner, t: Template, es: seq<Errors<s16>>, loc: char, i: nat, j: nat)
    requires InTemplate(loc, i, j)
    ensures CoeffAt(UpdatedBy(kind, t, es), loc, i, j) == S16(CoeffAt(t, loc, i, j) + Total(kind, es, loc, i, j))
  {
    hide S16, CoeffAt, Applied, Updated;
    var c := CoeffAt(t, loc, i, j);
    if es == [] {
      S16OfNarrow(c);
    } else {
      var before, e := es[..|es| - 1], es[|es| - 1];
      CoefficientIsWrappedSum(kind, t, before, loc, i, j);
      UpdateAdds(kind, UpdatedBy(kind, t, before), e, loc, i, j);
      S16Absorbs(c + Total(kind, before, loc, i, j), Applied(kind, e, loc, i, j));
    }
  }

  /** Starting from zero, a coefficient is the exact sum of its errors if and only if that sum is a 16-bit number. */
  lemma NoWrapExactly(kind: Learner, es: seq<Errors<s16>>, loc: char, i: nat, j: nat)
    requires InTemplate(loc, i, j)
    ensures CoeffAt(UpdatedBy(kind, Same(0), es), loc, i, j) == Total(kind, es, loc, i, j)
            <==> -0x8000 <= Total(kind, es, loc, i, j) < 0x8000
  {
    hide S16, Total, UpdatedBy;
    CoefficientIsWrappedSum(kind, Same(0), es, loc, i, j);
    S16Characterised(Total(kind, es, loc, i, j), S16(Total(kind, es, loc, i, j)));
  }

  predicate Bounded(kind: Learner, es: seq<Errors<s16>>, loc: char, i: nat, j: nat, m: nat)
    requires InTemplate(loc, i, j)
  {
    forall k :: 0 <= k < |es| ==> 0 - m <= Applied(kind, es[k], loc, i, j) <= m
  }

  lemma {:induction false} TotalBounded(kind: Learner, es: seq<Errors<s16>>, loc: char, i: nat, j: nat, m: nat)
    requires InTemplate(loc, i, j) && Bounded(kind, es, loc, i, j, m)
    ensures -(|es| * m) <= Total(kind, es, loc, i, j) <= |es| * m
  {
    if es != [] {
      TotalBounded(kind, es[..|es| - 1], loc, i, j, m);
      Distribute(|es| - 1, m);
    }
  }

  /** Errors of magnitude at most m cannot wrap a coefficient in 32767 / m updates: after k of them the coefficient is
      their exact sum, at every k. */
  lemma NoWrapBound(kind: Learner, es: seq<Errors<s16>>, loc: char, i: nat, j: nat, m: nat, k: nat)
    requires InTemplate(loc, i, j) && Bounded(kind, es, loc, i, j, m)
    requires k <= |es| && |es| * m <= 32767
    ensures CoeffAt(UpdatedBy(kind, Same(0), es[..k]), loc, i, j) == Total(kind, es[..k], loc, i, j)
    ensures -(k * m) <= CoeffAt(UpdatedBy(kind, Same(0), es[..k]), loc, i, j) <= k * m
  {
    TotalBounded(kind, es[..k], loc, i, j, m);
    MulMonotone(k, |es|, m);
    NoWrapExactly(kind, es[..k], loc, i, j);
  }

  /** The error records of the first n turns of a learning loop. */
  function ErrorTrace(chip: Chip, kind: Learner, w: World, n: nat): (es: seq<Errors<s16>>)
    requires w.Valid(chip)
    ensures |es| == n
  {
    if n == 0 then [] else ErrorTrace(chip, kind, w, n - 1) + [Learn(chip, kind, w, n).errors]
  }

  lemma StepUpdates(chip: Chip, kind: Learner, w: World)
    requires w.Valid(chip)
    ensures var r := Step(chip, kind, w);
      |r.templates| == TEMPLATES && r.templates[1] == Updated(kind, w.templates[1], r.errors)
  {
    hide Drive, ScaledErrors, Updated1d, Updated2d;
    TrialFrame(chip, w, 1);
    if kind.LearnMultilayer? {
      TrialFrame(chip, Step3(chip, w), 2);
    }
  }

  /** What the learning loops leave in template 1 is its sequence of updates by the errors of the turns; with
      `CoefficientIsWrappedSum` every learned coefficient is the wrapped sum of the errors of all turns. */
  lemma {:induction false} LearnsBySummation(chip: Chip, kind: Learner, w: World, n: nat)
    requires w.Valid(chip)
    ensures |Learn(chip, kind, w, n).templates| == TEMPLATES == |w.templates|
    ensures Learn(chip, kind, w, n).templates[1] == UpdatedBy(kind, w.templates[1], ErrorTrace(chip, kind, w, n))
  {
    hide Learn, Step, Updated, World.Valid;
    LearnZero(chip, kind, w);
    Counts(chip, w);
    if n > 0 {
      LearnsBySummation(chip, kind, w, n - 1);
      LearnNext(chip, kind, w, n - 1);
      StepUpdates(chip, kind, Learn(chip, kind, w, n - 1));
      var es := ErrorTrace(chip, kind, w, n);
      assert es[..n - 1] == ErrorTrace(chip, kind, w, n - 1);
    }
  }

  // ------------------------------------------------------------------------------------------------------------------
  // ... and which errors those are
  // ------------------------------------------------------------------------------------------------------------------

  /** The errors a turn applies: those of its first run, scaled. */
  function TurnErrors(chip: Chip, s: Setting, l: Learnt): Errors<s16> {
    ScaledErrors(Answer(chip, s, l, l.t1).errors, s.rate, s.width * s.height)
  }

  /** The errors of n turns, run by run. */
  function RunErrors(chip: Chip, kind: Learner, s: Setting, l: Learnt, n: nat): (es: seq<Errors<s16>>)
    ensures |es| == n
  {
    if n == 0 then [] else RunErrors(chip, kind, s, l, n - 1) + [TurnErrors(chip, s, Turns(chip, kind, s, l, n - 1))]
  }

  /** The error record a turn leaves is that of its run, so the trace read from the states is the one of the runs. */
  lemma StepErrors(chip: Chip, kind: Learner, w: World)
    requires w.Valid(chip) && Fits(w.width, w.height, chip.cells)
    ensures Step(chip, kind, w).errors == TurnErrors(chip, SettingOf(w), LearntOf(w))
  {
    hide Drive, Answer, Trial, Updated1d, Updated2d, ScaledErrors;
    TrialMeaning(chip, w, 1);
    if kind.LearnMultilayer? {
      TrialFrame(chip, Step3(chip, w), 2);
      TrialMeaning(chip, Step3(chip, w), 2);
    }
  }

  lemma {:induction false} TraceIsOfTheRuns(chip: Chip, kind: Learner, w: World, n: nat)
    requires w.Valid(chip) && Fits(w.width, w.height, chip.cells)
    ensures ErrorTrace(chip, kind, w, n) == RunErrors(chip, kind, SettingOf(w), LearntOf(w), n)
  {
    hide Learn, Step, Turn, TurnErrors, World.Valid;
    Counts(chip, w);
    if n > 0 {
      TraceIsOfTheRuns(chip, kind, w, n - 1);
      var before := Learn(chip, kind, w, n - 1);
      LearnNext(chip, kind, w, n - 1);
      LearningIsIteration(chip, kind, w, n - 1);
      LearntIsExact(w, Turns(chip, kind, SettingOf(w), LearntOf(w), n - 1), before);
      StepErrors(chip, kind, before);
    }
  }

  lemma {:induction false} TurnsUpdate(chip: Chip, kind: Learner, s: Setting, l: Learnt, n: nat)
    ensures Turns(chip, kind, s, l, n).t1 == UpdatedBy(kind, l.t1, RunErrors(chip, kind, s, l, n))
    ensures Turns(chip, kind, s, l, n).t2 ==
            if kind.LearnMultilayer? then UpdatedBy(kind, l.t2, RunErrors(chip, kind, s, l, n)) else l.t2
  {
    hide Answer, Updated1d, Updated2d, ScaledErrors;
    if n > 0 {
      TurnsUpdate(chip, kind, s, l, n - 1);
      var es := RunErrors(chip, kind, s, l, n);
      assert es[..n - 1] == RunErrors(chip, kind, s, l, n - 1);
    }
  }

  /** What algorithm3, algorithm4 and algorithm5 learn: every coefficient of template 1, and in multilayer learning of
      template 2, is the exact sum of the scaled errors of all their runs, reduced to 16 bits once. */
  lemma LearnedCoefficients(chip: Chip, kind: Learner, w: World, loc: char, i: nat, j: nat)
    requires w.Valid(chip) && Fits(w.width, w.height, chip.cells) && InTemplate(loc, i, j)
    ensures var r := LearningAlgorithm(chip, kind, w);
      var es := RunErrors(chip, kind, SettingOf(w), Beginning(kind, w), w.cnn.learnLoop);
      && |r.templates| == TEMPLATES
      && CoeffAt(r.templates[1], loc, i, j) == S16(Total(kind, es, loc, i, j))
      && (kind.LearnMultilayer? ==> CoeffAt(r.templates[2], loc, i, j) == S16(Total(kind, es, loc, i, j)))
  {
    hide LearningAlgorithm, Turns, RunErrors, UpdatedBy, Total, S16;
    var es := RunErrors(chip, kind, SettingOf(w), Beginning(kind, w), w.cnn.learnLoop);
    LearningAlgorithmMeaning(chip, kind, w);
    TurnsUpdate(chip, kind, SettingOf(w), Beginning(kind, w), w.cnn.learnLoop);
    CoefficientIsWrappedSum(kind, Same(0), es, loc, i, j);
  }

  /** The error registers after a turn: those of its last run. */
  function TurnRegisters(chip: Chip, kind: Learner, s: Setting, l: Learnt): Errors<s32> {
    var out := Answer(chip, s, l, l.t1);
    if kind.LearnMultilayer? then
      Answer(chip, s, After(s, l, out).(t1 := Updated1d(l.t1, TurnErrors(chip, s, l))), l.t2).errors
    else out.errors
  }

  function LastRegisters(chip: Chip, kind: Learner, s: Setting, l: Learnt, n: nat, before: Errors<s32>): Errors<s32> {
    if n == 0 then before else TurnRegisters(chip, kind, s, Turns(chip, kind, s, l, n - 1))
  }

  lemma StepRegisters(chip: Chip, kind: Learner, w: World)
    requires w.Valid(chip) && Fits(w.width, w.height, chip.cells)
    ensures Step(chip, kind, w).hw.errors == TurnRegisters(chip, kind, SettingOf(w), LearntOf(w))
  {
    hide Drive, Answer, Trial, Updated1d, Updated2d, ScaledErrors, Unflatten;
    TrialMeaning(chip, w, 1);
    if kind.LearnMultilayer? {
      TrialMeaning(chip, Step3(chip, w), 2);
    }
  }

  lemma LearnRegisters(chip: Chip, kind: Learner, w: World, n: nat)
    requires w.Valid(chip) && Fits(w.width, w.height, chip.cells)
    ensures Learn(chip, kind, w, n).hw.errors ==
            LastRegisters(chip, kind, SettingOf(w), LearntOf(w), n, w.hw.errors)
  {
    hide Learn, Step, Turn, TurnRegisters, World.Valid;
    Counts(chip, w);
    LearnZero(chip, kind, w);
    if n > 0 {
      var before := Learn(chip, kind, w, n - 1);
      LearnNext(chip, kind, w, n - 1);
      LearningIsIteration(chip, kind, w, n - 1);
      LearntIsExact(w, Turns(chip, kind, SettingOf(w), LearntOf(w), n - 1), before);
      StepRegisters(chip, kind, before);
    }
  }

  // ------------------------------------------------------------------------------------------------------------------
  // Multilayer, 1-D and 2-D learning compared
  // ------------------------------------------------------------------------------------------------------------------

  lemma StepUpdatesBoth(chip: Chip, w: World)
    requires w.Valid(chip)
    ensures var r := Step(chip, LearnMultilayer, w);
      && |r.templates| == TEMPLATES
      && r.templates[1] == Updated1d(w.templates[1], r.errors)
      && r.templates[2] == Updated1d(w.templates[2], r.errors)
  {
    hide Drive, ScaledErrors, Updated1d;
    TrialFrame(chip, w, 1);
    TrialFrame(chip, Step3(chip, w), 2);
  }

  /** In multilayer learning the two templates stay equal, at every loop head: both are created zero, and one error read
      feeds both updates, although a second run lies between them. */
  lemma {:induction false} MultilayerTemplatesEqual(chip: Chip, w: World, n: nat)
    requires w.Valid(chip) && w.templates[1] == w.templates[2]
    ensures |Learn(chip, LearnMultilayer, w, n).templates| == TEMPLATES
    ensures Learn(chip, LearnMultilayer, w, n).templates[1] == Learn(chip, LearnMultilayer, w, n).templates[2]
  {
    hide Learn, Step, Updated1d, World.Valid;
    LearnZero(chip, LearnMultilayer, w);
    Counts(chip, w);
    if n > 0 {
      MultilayerTemplatesEqual(chip, w, n - 1);
      LearnNext(chip, LearnMultilayer, w, n - 1);
      StepUpdatesBoth(chip, Learn(chip, LearnMultilayer, w, n - 1));
    }
  }

  lemma MultilayerAlgorithmTemplatesEqual(chip: Chip, w: World)
    requires w.Valid(chip)
    ensures var r := LearningAlgorithm(chip, LearnMultilayer, w);
      |r.templates| == TEMPLATES && r.templates[1] == r.templates[2]
  {
    hide Learn;
    MultilayerTemplatesEqual(chip, Prepared(chip, LearnMultilayer, w), w.cnn.learnLoop);
  }

  /** 1-D learning from zero never leaves the middle rows. */
  predicate OneDimensional(t: Template) {
    && t.a.p00 == t.a.p01 == t.a.p02 == t.a.p20 == t.a.p21 == t.a.p22 == 0
    && t.b.p00 == t.b.p01 == t.b.p02 == t.b.p20 == t.b.p21 == t.b.p22 == 0
    && t.x == t.u == 0
  }

  lemma {:induction false} LearningStaysOneDimensional(kind: Learner, es: seq<Errors<s16>>)
    requires !kind.Learn2d?
    ensures OneDimensional(UpdatedBy(kind, Same(0), es))
  {
    hide S16;
    if es != [] {
      LearningStaysOneDimensional(kind, es[..|es| - 1]);
    }
  }

  predicate ZeroOutsideRow1(g: Grid<s16>) {
    g.p00 == g.p01 == g.p02 == g.p20 == g.p21 == g.p22 == 0
  }

  lemma AddNothing(c: s16, e: s16)
    ensures S16(c + e) == c <==> e == 0
  {
  }

  lemma GridAgrees(g: Grid<s16>, e: Grid<s16>)
    ensures AddGrid(g, e) == AddRow1(g, e) <==> ZeroOutsideRow1(e)
  {
    hide S16;
    AddNothing(g.p00, e.p00);
    AddNothing(g.p01, e.p01);
    AddNothing(g.p02, e.p02);
    AddNothing(g.p20, e.p20);
    AddNothing(g.p21, e.p21);
    AddNothing(g.p22, e.p22);
  }

  /** The 2-D update is the 1-D update exactly when the errors of rows 0 and 2 are all zero, from any template. */
  lemma UpdatesAgreeExactly(t: Template, e: Errors<s16>)
    ensures Updated2d(t, e) == Updated1d(t, e) <==> ZeroOutsideRow1(e.x) && ZeroOutsideRow1(e.u)
  {
    hide AddGrid, AddRow1, S16;
    GridAgrees(t.a, e.x);
    GridAgrees(t.b, e.u);
  }

  /** algorithm5 without its own error_get: the update still reads the errors. */
  function Learn2dOnce(chip: Chip, w: World, n: nat): (r: World)
    requires w.Valid(chip)
    ensures r.Valid(chip)
  {
    if n == 0 then w else
      TemplateUpdated2d(Trial(chip, Learn2dOnce(chip, w, n - 1), 1), 1)
  }

  lemma ReadingTwice(w: World)
    ensures ErrorsRead(ErrorsRead(w)) == ErrorsRead(w)
  {
  }

  /** Reading the errors twice in a turn is the same as reading them once: nothing at all differs afterwards. */
  lemma {:induction false} SecondReadRedundant(chip: Chip, w: World, n: nat)
    requires w.Valid(chip)
    ensures Learn(chip, Learn2d, w, n) == Learn2dOnce(chip, w, n)
  {
    hide Learn, Trial, ErrorsRead, World.Valid;
    LearnZero(chip, Learn2d, w);
    if n > 0 {
      SecondReadRedundant(chip, w, n - 1);
      LearnNext(chip, Learn2d, w, n - 1);
      ReadingTwice(Trial(chip, Learn2dOnce(chip, w, n - 1), 1));
    }
  }
}
