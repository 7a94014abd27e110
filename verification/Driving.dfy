/** cnn_driver, seen from outside: images go in, one image and the error registers come out. */
module Driving {
  import opened Words
  import opened Grids
  import opened Pictures
  import opened Hardware
  import opened Semantics

  /** What the processor computes for three pictures. */
  function Result(chip: Chip, hidden: nat, width: u16, height: u16, ts: u16, iterations: u16, t: Template,
                  u: Picture, x: Picture, ideal: Picture): Outcome
  {
    chip.run(hidden, Job(width, height, ts, iterations, t, Flatten(u), Flatten(x), Flatten(ideal)))
  }

  /** While the addresses do not wrap, filling writes the first n cells and leaves the rest alone. */
  lemma {:induction false} FilledPrefix(ram: Ram, flat: seq<u16>, n: nat)
    requires !ram.writeEnable && n <= |flat| && n <= |ram.cells| <= 0x1_0000
    ensures Filled(ram, flat, n).cells == flat[..n] + ram.cells[n..]
  {
    if n > 0 {
      FilledPrefix(ram, flat, n - 1);
      SmallMod(n - 1, 0x1_0000);
      SmallMod(n - 1, |ram.cells|);
      var before := Filled(ram, flat, n - 1);
      assert before.cells == flat[..n - 1] + ram.cells[n - 1..];
      assert Filled(ram, flat, n) == Written(before, n - 1, flat[n - 1]);
      assert Filled(ram, flat, n).cells == before.cells[n - 1 := flat[n - 1]];
    }
  }

  /** Reading back from cells that start with at(0), at(1), ... gives the picture of those values. */
  lemma UnloadedPrefix(cells: seq<u16>, at: nat -> u16, width: nat, height: nat)
    requires 0 < |cells| <= 0x1_0000 && Fits(width, height, |cells|)
    requires forall k: nat :: k < width * height ==> cells[k] == at(k)
    ensures Unloaded(cells, width, height) == Unflatten(at, width, height)
  {
    var p, q := Unloaded(cells, width, height), Unflatten(at, width, height);
    forall i: nat | i < height
      ensures p[i] == q[i]
    {
      forall j: nat | j < width
        ensures p[i][j] == q[i][j]
      {
        CellInRange(i, j, width, height, |cells|);
      }
    }
  }

  /** The driver's meaning, whenever the images fit the RAMs: the processor runs on the row-major flattening of the
      three slots; slot x becomes the picture of the result, even if it was also the u or the ideal slot, and no other
      slot changes; the error registers and the hidden state are those of the run. */
  lemma DriverMeaning(chip: Chip, w: World, u: nat, x: nat, ideal: nat, t: nat, iterations: u16, ts: u16)
    requires w.Valid(chip) && u < SLOTS && x < SLOTS && ideal < SLOTS && t < TEMPLATES
    requires Fits(w.width, w.height, chip.cells)
    ensures var r := Drive(chip, w, u, x, ideal, t, iterations, ts);
      var out := Result(chip, w.hw.hidden, w.width, w.height, ts, iterations, w.templates[t],
                        w.pics[u], w.pics[x], w.pics[ideal]);
      && r.pics == w.pics[x := Unflatten(out.x, w.width, w.height)]
      && r.hw.errors == out.errors
      && r.hw.hidden == out.hidden
      && r.hw.phase == Done
      && r == w.(pics := r.pics, hw := r.hw, monitor := DriverSeen(w.monitor, w.width, w.height))
  {
    hide Flatten, Filled, Unflatten, Unloaded, DriverSeen;
    var n := w.width * w.height;
    var fu, fx, fi := Flatten(w.pics[u]), Flatten(w.pics[x]), Flatten(w.pics[ideal]);
    FlattenLength(w.pics[u], w.width, w.height);
    FlattenLength(w.pics[x], w.width, w.height);
    FlattenLength(w.pics[ideal], w.width, w.height);
    var hw1 := Configured(w.hw, w.width, w.height, ts, iterations, w.templates[t]);
    FilledPrefix(hw1.u, fu, n);
    FilledPrefix(hw1.x, fx, n);
    FilledPrefix(hw1.ideal, fi, n);
    var hw2 := Loaded(hw1, fu, fx, fi, n);
    assert hw2.CurrentJob() == Job(w.width, w.height, ts, iterations, w.templates[t], fu, fx, fi);
    var hw3 := Completed(chip, hw2);
    UnloadedPrefix(hw3.x.cells, chip.run(w.hw.hidden, hw2.CurrentJob()).x, w.width, w.height);
  }

  /** The images are as a caller expects after a driver call: slot x holds the processor's answer to the three slots. */
  ghost predicate PicturesRight(chip: Chip, w: World, u: nat, x: nat, ideal: nat, t: nat, iterations: u16, ts: u16)
    requires w.Valid(chip) && u < SLOTS && x < SLOTS && ideal < SLOTS && t < TEMPLATES
  {
    var out := Result(chip, w.hw.hidden, w.width, w.height, ts, iterations, w.templates[t],
                      w.pics[u], w.pics[x], w.pics[ideal]);
    Drive(chip, w, u, x, ideal, t, iterations, ts).pics == w.pics[x := Unflatten(out.x, w.width, w.height)]
  }

  /** A processor that lights the first pixel only. */
  function FirstPixelOnly(cells: nat): (chip: Chip)
    requires 0 < cells <= 0x1_0000
    ensures chip.cells == cells
  {
    Chip(cells, (h: nat, j: Job) => Outcome(k => if k == 0 then 1 else 0, Errors(Uniform(0), Uniform(0), 0), h),
         (h: nat, j: Job) => 0)
  }

  /** When the images do not fit, that processor's answer comes back with a second bright pixel. */
  lemma DriverWrong(chip: Chip, w: World, u: nat, x: nat, ideal: nat, t: nat, iterations: u16, ts: u16)
    requires w.Valid(chip) && u < SLOTS && x < SLOTS && ideal < SLOTS && t < TEMPLATES
    requires chip == FirstPixelOnly(chip.cells) && !Fits(w.width, w.height, chip.cells)
    ensures !PicturesRight(chip, w, u, x, ideal, t, iterations, ts)
  {
    hide Filled, Flatten, Ram.Window;
    var i, j := SharedCell(w.width, w.height, chip.cells);
    var r := Drive(chip, w, u, x, ideal, t, iterations, ts);
    var out := Result(chip, w.hw.hidden, w.width, w.height, ts, iterations, w.templates[t],
                      w.pics[u], w.pics[x], w.pics[ideal]);
    assert r.pics[x][i][j] == 1;
    assert Unflatten(out.x, w.width, w.height)[i][j] == out.x(i * w.width + j) == 0;
  }

  /** The driver leaves the right pictures with every processor of a RAM size if and only if the images fit its RAMs,
      from every state and for all arguments. */
  lemma DriverRightExactlyWhenFits(cells: nat, w: World, u: nat, x: nat, ideal: nat, t: nat, iterations: u16, ts: u16)
    requires 0 < cells <= 0x1_0000 && w.Valid(FirstPixelOnly(cells))
    requires u < SLOTS && x < SLOTS && ideal < SLOTS && t < TEMPLATES
    ensures (forall chip: Chip | chip.cells == cells ::
               w.Valid(chip) && PicturesRight(chip, w, u, x, ideal, t, iterations, ts))
            <==> Fits(w.width, w.height, cells)
  {
    hide Drive, Result, Unflatten;
    if Fits(w.width, w.height, cells) {
      forall chip: Chip | chip.cells == cells
        ensures w.Valid(chip) && PicturesRight(chip, w, u, x, ideal, t, iterations, ts)
      {
        DriverMeaning(chip, w, u, x, ideal, t, iterations, ts);
      }
    } else {
      DriverWrong(FirstPixelOnly(cells), w, u, x, ideal, t, iterations, ts);
    }
  }

  // ------------------------------------------------------------------------------------------------------------------
  // What a driver call depends on, for images of any size
  // ------------------------------------------------------------------------------------------------------------------

  /** Loading n pixels, wrapped or not, settles each cell below n: nothing of what the RAM held before is left there. */
  lemma {:induction false} FilledForgets(r: Ram, q: Ram, flat: seq<u16>, n: nat, c: nat)
    requires !r.writeEnable && !q.writeEnable && |r.cells| == |q.cells| <= 0x1_0000
    requires c < n <= |flat| && c < |r.cells|
    ensures Filled(r, flat, n).cells[c] == Filled(q, flat, n).cells[c]
  {
    WrittenCell(Filled(r, flat, n - 1), U16(n - 1), flat[n - 1]);
    WrittenCell(Filled(q, flat, n - 1), U16(n - 1), flat[n - 1]);
    if c == n - 1 {
      SmallMod(c, 0x1_0000);
      SmallMod(c, |r.cells|);
    } else {
      hide Written;
      FilledForgets(r, q, flat, n - 1, c);
    }
  }

  lemma WindowsAgree(a: Ram, b: Ram, n: nat)
    requires |a.cells| == |b.cells| && forall c: nat :: c < n && c < |a.cells| ==> a.cells[c] == b.cells[c]
    ensures a.Window(n) == b.Window(n)
  {
  }

  /** So what the processor sees of a loaded RAM is the same whatever it held. */
  lemma WindowForgets(r: Ram, q: Ram, flat: seq<u16>)
    requires !r.writeEnable && !q.writeEnable && |r.cells| == |q.cells| <= 0x1_0000
    ensures Filled(r, flat, |flat|).Window(|flat|) == Filled(q, flat, |flat|).Window(|flat|)
  {
    hide Filled, Ram.Window;
    var a, b := Filled(r, flat, |flat|), Filled(q, flat, |flat|);
    forall c: nat | c < |flat| && c < |a.cells|
      ensures a.cells[c] == b.cells[c]
    {
      FilledForgets(r, q, flat, |flat|, c);
    }
    WindowsAgree(a, b, |flat|);
  }

  lemma ModAtMost(a: nat, n: nat)
    requires n > 0
    ensures a % n <= a && a % n < n
  {
  }

  lemma CellBelowArea(i: nat, j: nat, width: nat, height: nat, cells: nat)
    requires cells > 0 && i < height && j < width
    ensures CellOf(i, j, width, cells) < width * height && CellOf(i, j, width, cells) < cells
  {
    InRange(i, j, width, height);
    ModAtMost(j + i * width, 0x1_0000);
    ModAtMost(U16(j + i * width), cells);
  }

  /** Unloading reads only cells below width * height. */
  lemma UnloadedAgrees(c: seq<u16>, d: seq<u16>, width: nat, height: nat)
    requires 0 < |c| == |d|
    requires forall k :: 0 <= k < |c| && k < width * height ==> c[k] == d[k]
    ensures Unloaded(c, width, height) == Unloaded(d, width, height)
  {
    hide CellOf;
    forall i: nat | i < height
      ensures Unloaded(c, width, height)[i] == Unloaded(d, width, height)[i]
    {
      forall j: nat | j < width
        ensures UnloadedRow(c, i, width)[j] == UnloadedRow(d, i, width)[j]
      {
        CellBelowArea(i, j, width, height, |c|);
      }
    }
  }

  /** Two states that one driver call cannot tell apart: same size, pictures, template and processor. */
  ghost predicate Alike(w: World, v: World, u: nat, x: nat, ideal: nat, t: nat)
    requires |w.pics| == |v.pics| == SLOTS && |w.templates| == |v.templates| == TEMPLATES
    requires u < SLOTS && x < SLOTS && ideal < SLOTS && t < TEMPLATES
  {
    && w.width == v.width && w.height == v.height
    && w.pics[u] == v.pics[u] && w.pics[x] == v.pics[x] && w.pics[ideal] == v.pics[ideal]
    && w.templates[t] == v.templates[t] && w.hw.hidden == v.hw.hidden
  }

  function LoadedJob(w: World, u: nat, x: nat, ideal: nat, t: nat, iterations: u16, ts: u16): Job
    requires |w.pics| == SLOTS && |w.templates| == TEMPLATES
    requires u < SLOTS && x < SLOTS && ideal < SLOTS && t < TEMPLATES
  {
    var fu, fx, fi := Flatten(w.pics[u]), Flatten(w.pics[x]), Flatten(w.pics[ideal]);
    var n := w.width * w.height;
    Job(w.width, w.height, ts, iterations, w.templates[t],
        Filled(w.hw.u, fu, |fu|).Window(n), Filled(w.hw.x, fx, |fx|).Window(n),
        Filled(w.hw.ideal, fi, |fi|).Window(n))
  }

  /** The processor is given the same job in both. */
  lemma SameJob(chip: Chip, w: World, v: World, u: nat, x: nat, ideal: nat, t: nat, iterations: u16, ts: u16)
    requires w.Valid(chip) && v.Valid(chip) && u < SLOTS && x < SLOTS && ideal < SLOTS && t < TEMPLATES
    requires Alike(w, v, u, x, ideal, t)
    ensures LoadedJob(w, u, x, ideal, t, iterations, ts) == LoadedJob(v, u, x, ideal, t, iterations, ts)
  {
    hide Filled, Flatten, Ram.Window;
    FlattenLength(w.pics[u], w.width, w.height);
    FlattenLength(w.pics[x], w.width, w.height);
    FlattenLength(w.pics[ideal], w.width, w.height);
    WindowForgets(w.hw.u, v.hw.u, Flatten(w.pics[u]));
    WindowForgets(w.hw.x, v.hw.x, Flatten(w.pics[x]));
    WindowForgets(w.hw.ideal, v.hw.ideal, Flatten(w.pics[ideal]));
  }

  /** What a driver call leaves in terms of that job, for images of any size. */
  lemma DriveByJob(chip: Chip, w: World, u: nat, x: nat, ideal: nat, t: nat, iterations: u16, ts: u16)
    requires w.Valid(chip) && u < SLOTS && x < SLOTS && ideal < SLOTS && t < TEMPLATES
    ensures var r := Drive(chip, w, u, x, ideal, t, iterations, ts);
      var out := chip.run(w.hw.hidden, LoadedJob(w, u, x, ideal, t, iterations, ts));
      && |r.pics| == SLOTS && r.hw.errors == out.errors && r.hw.hidden == out.hidden && |r.hw.x.cells| == chip.cells
      && (forall k :: 0 <= k < chip.cells && k < w.width * w.height ==> r.hw.x.cells[k] == out.x(k))
      && r.pics[x] == Unloaded(r.hw.x.cells, w.width, w.height)
  {
    hide Filled, Flatten, Ram.Window, Unloaded;
    FlattenLength(w.pics[u], w.width, w.height);
    FlattenLength(w.pics[x], w.width, w.height);
    FlattenLength(w.pics[ideal], w.width, w.height);
  }

  /** For images of any size: whatever else two states hold, in other slots, other templates or the RAMs, a driver call
      leaves the same picture, the same errors and the same processor. */
  lemma DriveDependsOnly(chip: Chip, w: World, v: World, u: nat, x: nat, ideal: nat, t: nat, iterations: u16, ts: u16)
    requires w.Valid(chip) && v.Valid(chip) && u < SLOTS && x < SLOTS && ideal < SLOTS && t < TEMPLATES
    requires Alike(w, v, u, x, ideal, t)
    ensures var r, q := Drive(chip, w, u, x, ideal, t, iterations, ts), Drive(chip, v, u, x, ideal, t, iterations, ts);
      && |r.pics| == |q.pics| == SLOTS
      && r.pics[x] == q.pics[x] && r.hw.errors == q.hw.errors && r.hw.hidden == q.hw.hidden
  {
    hide Drive, LoadedJob, Unloaded;
    SameJob(chip, w, v, u, x, ideal, t, iterations, ts);
    DriveByJob(chip, w, u, x, ideal, t, iterations, ts);
    DriveByJob(chip, v, u, x, ideal, t, iterations, ts);
    UnloadedAgrees(Drive(chip, w, u, x, ideal, t, iterations, ts).hw.x.cells,
                   Drive(chip, v, u, x, ideal, t, iterations, ts).hw.x.cells, w.width, w.height);
  }

  /** What the driver leaves alone, for images of any size. */
  lemma DriverFrame(chip: Chip, w: World, u: nat, x: nat, ideal: nat, t: nat, iterations: u16, ts: u16)
    requires w.Valid(chip) && u < SLOTS && x < SLOTS && ideal < SLOTS && t < TEMPLATES
    ensures var r := Drive(chip, w, u, x, ideal, t, iterations, ts);
      && |r.pics| == SLOTS
      && r == w.(pics := w.pics[x := r.pics[x]], hw := r.hw, monitor := DriverSeen(w.monitor, w.width, w.height))
  {
  }

  /** Direct CNN, when the images fit: the processor's answer to slots 0, 1 and 2 with the template the host named goes
      to slot 1, two acknowledgements go out, and nothing else of the store changes. */
  lemma DirectMeaning(chip: Chip, w: World)
    requires w.Valid(chip) && Named(w.cnn, 1) && Fits(w.width, w.height, chip.cells)
    ensures var r := Command(chip, w, 1);
      var out := Result(chip, w.hw.hidden, w.width, w.height, w.cnn.ts, w.cnn.iterations,
                        w.templates[w.cnn.templateNo], w.pics[0], w.pics[1], w.pics[2]);
      && r.hw.errors == out.errors && r.hw.hidden == out.hidden && r.hw.phase == Done
      && r == w.(pics := w.pics[1 := Unflatten(out.x, w.width, w.height)],
                 hw := r.hw, monitor := r.monitor, sent := w.sent + [2, 2])
  {
    hide Drive, Result, Unflatten;
    DriverMeaning(chip, Send(w, 2), 0, 1, 2, w.cnn.templateNo, w.cnn.iterations, w.cnn.ts);
  }

  /** ... and for images of any size: no slot but 1, no template, no parameter and no error record changes. */
  lemma DirectFrame(chip: Chip, w: World)
    requires w.Valid(chip) && Named(w.cnn, 1)
    ensures var r := Command(chip, w, 1);
      && |r.pics| == SLOTS
      && r == w.(pics := w.pics[1 := r.pics[1]], hw := r.hw, monitor := r.monitor, sent := w.sent + [2, 2])
  {
    hide Drive;
    DriverFrame(chip, Send(w, 2), 0, 1, 2, w.cnn.templateNo, w.cnn.iterations, w.cnn.ts);
  }

  ghost predicate SurvivesRam(ram: Ram, p: Picture, width: nat, height: nat)
    requires Shaped(p, width, height) && |ram.cells| > 0
  {
    Unloaded(Filled(ram, Flatten(p), |Flatten(p)|).cells, width, height) == p
  }

  lemma Survives(ram: Ram, p: Picture, width: nat, height: nat)
    requires !ram.writeEnable && 0 < |ram.cells| <= 0x1_0000
    requires Shaped(p, width, height) && Fits(width, height, |ram.cells|)
    ensures SurvivesRam(ram, p, width, height)
  {
    FlattenLength(p, width, height);
    var flat := Flatten(p);
    var at: nat -> u16 := k => if 0 <= k < |flat| then flat[k] else 0;
    FilledPrefix(ram, flat, |flat|);
    UnloadedPrefix(Filled(ram, flat, |flat|).cells, at, width, height);
    UnflattenFlatten(p, width, height, at);
  }

  /** A picture with a single bright pixel at the origin is lost when it does not fit. */
  lemma LostPicture(ram: Ram, width: nat, height: nat)
    requires 0 < |ram.cells| <= 0x1_0000 && !Fits(width, height, |ram.cells|)
    ensures exists p: Picture :: Shaped(p, width, height) && !SurvivesRam(ram, p, width, height)
  {
    var at: nat -> u16 := k => if k == 0 then 1 else 0;
    var p := Unflatten(at, width, height);
    var i, j := SharedCell(width, height, |ram.cells|);
    var q := Unloaded(Filled(ram, Flatten(p), |Flatten(p)|).cells, width, height);
    assert q[0][0] == q[i][j];
    assert p[0][0] == at(0 * width + 0) == 1 by {
      assert 0 * width == 0;
    }
    assert p[i][j] == at(i * width + j) == 0;
    assert !SurvivesRam(ram, p, width, height);
  }

  /** Writing a picture to a RAM and reading it back gives the picture back, for every picture of a size, exactly when
      the pictures of that size fit the RAM. */
  lemma RoundTripExactlyWhenFits(ram: Ram, width: nat, height: nat)
    requires !ram.writeEnable && 0 < |ram.cells| <= 0x1_0000
    ensures (forall p: Picture :: Shaped(p, width, height) ==> SurvivesRam(ram, p, width, height))
            <==> Fits(width, height, |ram.cells|)
  {
    if Fits(width, height, |ram.cells|) {
      forall p: Picture | Shaped(p, width, height)
        ensures SurvivesRam(ram, p, width, height)
      {
        Survives(ram, p, width, height);
      }
    } else {
      LostPicture(ram, width, height);
    }
  }
}
