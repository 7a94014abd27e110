/** algorithm2: four runs with fixed templates. */
module Pipeline {
  import opened Words
  import opened Grids
  import opened Pictures
  import opened Hardware
  import opened Semantics
  import opened Driving

  /** Everything the result of the pipeline depends on. */
  datatype Input = Input(
    width: u16, height: u16, u: Picture, ideal: Picture,
    edge: Template, second: Template, third: Template, last: Template, hidden: nat)

  function InputOf(w: World): Input
    requires |w.pics| == SLOTS && |w.templates| == TEMPLATES
  {
    Input(w.width, w.height, w.pics[0], w.pics[2],
          w.templates[2], w.templates[12], w.templates[8], w.templates[4], w.hw.hidden)
  }

  /** One stage: run on u from the state x, and cut the result into a picture. */
  function Stage(chip: Chip, width: u16, height: u16, ideal: Picture, hidden: nat, ts: u16, iterations: u16,
                 t: Template, u: Picture, x: Picture): (Picture, Outcome)
  {
    var out := Result(chip, hidden, width, height, ts, iterations, t, u, x, ideal);
    (Unflatten(out.x, width, height), out)
  }

  /** The composition: 100 iterations with template 2 on the input from a black state; then one iteration each with
      templates 12 and 8, from a black state; then template 4, from the state the first stage left. */
  function Composed(chip: Chip, p: Input, black: Picture): (Picture, Picture, Picture, Outcome) {
    var (first, o1) := Stage(chip, p.width, p.height, p.ideal, p.hidden, 102, 100, p.edge, p.u, black);
    var (second, o2) := Stage(chip, p.width, p.height, p.ideal, o1.hidden, 1024, 1, p.second, first, black);
    var (third, o3) := Stage(chip, p.width, p.height, p.ideal, o2.hidden, 1024, 1, p.third, second, black);
    var (last, o4) := Stage(chip, p.width, p.height, p.ideal, o3.hidden, 1024, 1, p.last, third, first);
    (last, second, third, o4)
  }

  /** A stage of the firmware: an optional fill and a driver call. */
  lemma StageMeaning(chip: Chip, w: World, u: nat, x: nat, t: nat, iterations: u16, ts: u16)
    requires w.Valid(chip) && Fits(w.width, w.height, chip.cells)
    requires u < SLOTS && x < SLOTS && x != 0 && x != 2 && t < TEMPLATES
    ensures var r := Drive(chip, w, u, x, 2, t, iterations, ts);
      var (pic, out) := Stage(chip, w.width, w.height, w.pics[2], w.hw.hidden, ts,
                              iterations, w.templates[t], w.pics[u], w.pics[x]);
      && |r.pics| == SLOTS
      && r == w.(pics := w.pics[x := pic], hw := r.hw, monitor := r.monitor)
      && r.hw.hidden == out.hidden && r.hw.errors == out.errors
  {
    hide Drive, Result, Unflatten;
    DriverMeaning(chip, w, u, x, 2, t, iterations, ts);
  }

  /** From w to r, slots 1, 3 and 4 took the last, second and third stage of a composition, and no other image, no
      template and no parameter changed. */
  predicate Leaves(w: World, r: World, stages: (Picture, Picture, Picture, Outcome)) {
    var (last, second, third, out) := stages;
    && |w.pics| == |r.pics| == SLOTS
    && r.pics == w.pics[1 := last][3 := second][4 := third]
    && r.hw.hidden == out.hidden && r.hw.errors == out.errors
    && r == w.(pics := r.pics, hw := r.hw, monitor := r.monitor, sent := w.sent + [2, 2])
  }

  lemma PipelineMeaning(chip: Chip, w: World, black: Picture)
    requires w.Valid(chip) && Fits(w.width, w.height, chip.cells) && Solid(black, w.width, w.height, 0)
    ensures Leaves(w, Algorithm2(chip, w), Composed(chip, InputOf(w), black))
  {
    hide Drive, Stage, Uniformly, Solid;
    SolidUnique(black, w.width, w.height, 0);
    var w0 := Fill(Send(w, 2), 1, 0);
    StageMeaning(chip, w0, 0, 1, 2, 100, 102);
    var w1 := Fill(Drive(chip, w0, 0, 1, 2, 2, 100, 102), 3, 0);
    StageMeaning(chip, w1, 1, 3, 12, 1, 1024);
    var w2 := Fill(Drive(chip, w1, 1, 3, 2, 12, 1, 1024), 4, 0);
    StageMeaning(chip, w2, 3, 4, 8, 1, 1024);
    var w3 := Drive(chip, w2, 3, 4, 2, 8, 1, 1024);
    StageMeaning(chip, w3, 4, 1, 4, 1, 1024);
  }

  // ------------------------------------------------------------------------------------------------------------------
  // What the pipeline depends on, for images of any size
  // ------------------------------------------------------------------------------------------------------------------

  /** Two states of the pipeline agree on its input and on the stages done so far. */
  ghost predicate Agree(w: World, v: World, slots: set<nat>)
    requires |w.pics| == SLOTS && |w.templates| == TEMPLATES && |v.pics| == SLOTS && |v.templates| == TEMPLATES
  {
    InputOf(w) == InputOf(v) && forall s: nat :: s in slots && s < SLOTS ==> w.pics[s] == v.pics[s]
  }

  lemma StageAgrees(chip: Chip, w: World, v: World, slots: set<nat>, u: nat, x: nat, t: nat, iterations: u16, ts: u16)
    requires w.Valid(chip) && v.Valid(chip) && Agree(w, v, slots)
    requires u < SLOTS && x < SLOTS && x != 0 && x != 2 && (u == 0 || u in slots) && x in slots
    requires t == 2 || t == 12 || t == 8 || t == 4
    ensures var r, q := Drive(chip, w, u, x, 2, t, iterations, ts), Drive(chip, v, u, x, 2, t, iterations, ts);
      && |r.pics| == |q.pics| == SLOTS && |r.templates| == |q.templates| == TEMPLATES
      && Agree(r, q, slots) && r.hw.errors == q.hw.errors
  {
    hide Drive;
    DriveDependsOnly(chip, w, v, u, x, 2, t, iterations, ts);
    DriverFrame(chip, w, u, x, 2, t, iterations, ts);
    DriverFrame(chip, v, u, x, 2, t, iterations, ts);
  }

  lemma FillAgrees(chip: Chip, w: World, v: World, slots: set<nat>, x: nat)
    requires w.Valid(chip) && v.Valid(chip) && Agree(w, v, slots) && x < SLOTS && x != 0 && x != 2
    ensures Fill(w, x, 0).Valid(chip) && Fill(v, x, 0).Valid(chip) && Agree(Fill(w, x, 0), Fill(v, x, 0), slots + {x})
  {
    hide Uniformly;
  }

  /** The result depends on slots 0 and 2, four templates and the processor only, for images of any size: whatever two
      stores and the RAMs hold elsewhere, in particular in slots 1, 3 and 4, they end with the same slots 1, 3 and 4. */
  lemma PipelineDependsOnlyOnInput(chip: Chip, w: World, v: World)
    requires w.Valid(chip) && v.Valid(chip)
    requires InputOf(w) == InputOf(v)
    ensures var r, q := Algorithm2(chip, w), Algorithm2(chip, v);
      && |r.pics| == |q.pics| == SLOTS
      && r.pics[1] == q.pics[1] && r.pics[3] == q.pics[3] && r.pics[4] == q.pics[4]
      && r.hw.errors == q.hw.errors && r.hw.hidden == q.hw.hidden
  {
    hide Drive, Fill;
    FillAgrees(chip, Send(w, 2), Send(v, 2), {}, 1);
    var w0, v0 := Fill(Send(w, 2), 1, 0), Fill(Send(v, 2), 1, 0);
    StageAgrees(chip, w0, v0, {1}, 0, 1, 2, 100, 102);
    var w1, v1 := Drive(chip, w0, 0, 1, 2, 2, 100, 102), Drive(chip, v0, 0, 1, 2, 2, 100, 102);
    FillAgrees(chip, w1, v1, {1}, 3);
    var w2, v2 := Fill(w1, 3, 0), Fill(v1, 3, 0);
    StageAgrees(chip, w2, v2, {1} + {3}, 1, 3, 12, 1, 1024);
    var w3, v3 := Drive(chip, w2, 1, 3, 2, 12, 1, 1024), Drive(chip, v2, 1, 3, 2, 12, 1, 1024);
    FillAgrees(chip, w3, v3, {1} + {3}, 4);
    var w4, v4 := Fill(w3, 4, 0), Fill(v3, 4, 0);
    StageAgrees(chip, w4, v4, {1} + {3} + {4}, 3, 4, 8, 1, 1024);
    var w5, v5 := Drive(chip, w4, 3, 4, 2, 8, 1, 1024), Drive(chip, v4, 3, 4, 2, 8, 1, 1024);
    StageAgrees(chip, w5, v5, {1} + {3} + {4}, 4, 1, 4, 1, 1024);
  }
}
