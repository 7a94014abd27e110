/** Whole runs: any sequence of algorithm_run commands. */
module Runs {
  import opened Words
  import opened Grids
  import opened Pictures
  import opened Hardware
  import opened Semantics
  import opened Driving
  import opened Learning

  /** Safe so far, the processor not busy as far as the bus shows, and no write-enable pulse since the last start. */
  predicate Clean(m: Monitor) {
    m.safe && !m.known.Busy? && m.tally.u == m.tally.x == m.tally.ideal == 0
  }

  /** What the bus has shown is what the processor is doing. */
  predicate Agrees(w: World) {
    && (w.monitor.known.Held? <==> w.hw.phase.InReset?)
    && (w.monitor.known.Busy? <==> w.hw.phase.Running?)
    && (w.monitor.known.Ready? <==> w.hw.phase.Done?)
  }

  /** How often one command starts the processor. */
  function StartsOf(cmd: u8, loop: nat): nat {
    match cmd
    case 1 => 1
    case 2 => 4
    case 3 => loop
    case 4 => 2 * loop
    case 5 => loop
    case _ => 0
  }

  function StartsOfAll(cmds: seq<u8>, loop: nat): nat {
    if cmds == [] then 0 else StartsOfAll(cmds[..|cmds| - 1], loop) + StartsOf(cmds[|cmds| - 1], loop)
  }

  /** What the host hears: a 2 when a known command begins and a 2 when it is done. */
  function Acknowledgements(cmds: seq<u8>): seq<u8> {
    if cmds == [] then [] else
      Acknowledgements(cmds[..|cmds| - 1]) + (if 1 <= cmds[|cmds| - 1] <= 5 then [2, 2] else [])
  }

  /** r came from w by `starts` safe runs of the processor, touching only slots 1, 3 and 4 and templates 1 and 2. */
  predicate SafelyAfter(w: World, r: World, starts: nat) {
    && Clean(r.monitor) && Agrees(r) && r.monitor.starts == w.monitor.starts + starts
    && |r.pics| == |w.pics| == SLOTS && |r.templates| == |w.templates| == TEMPLATES
    && (forall s :: 0 <= s < SLOTS && s != 1 && s != 3 && s != 4 ==> r.pics[s] == w.pics[s])
    && (forall t :: 0 <= t < TEMPLATES && t != 1 && t != 2 ==> r.templates[t] == w.templates[t])
    && r.width == w.width && r.height == w.height && r.cnn == w.cnn
  }

  lemma DriveSafely(chip: Chip, w: World, u: nat, x: nat, ideal: nat, t: nat, iterations: u16, ts: u16)
    requires w.Valid(chip) && u < SLOTS && ideal < SLOTS && t < TEMPLATES
    requires x == 1 || x == 3 || x == 4
    requires Clean(w.monitor)
    ensures var r := Drive(chip, w, u, x, ideal, t, iterations, ts);
      SafelyAfter(w, r, 1) && r.monitor.known.Ready? && r.sent == w.sent
  {
  }

  lemma StepSafely(chip: Chip, kind: Learner, w: World)
    requires w.Valid(chip) && Clean(w.monitor)
    ensures SafelyAfter(w, Step(chip, kind, w), if kind.LearnMultilayer? then 2 else 1)
    ensures Step(chip, kind, w).sent == w.sent
  {
    hide Drive, ScaledErrors, Updated1d, Updated2d;
    DriveSafely(chip, w, 0, 1, 2, 1, w.cnn.iterations, w.cnn.ts);
    if kind.LearnMultilayer? {
      DriveSafely(chip, Step3(chip, w), 0, 1, 2, 2, w.cnn.iterations, w.cnn.ts);
    }
  }

  lemma SafelyTransitive(w: World, m: World, r: World, a: nat, b: nat)
    requires SafelyAfter(w, m, a) && SafelyAfter(m, r, b)
    ensures SafelyAfter(w, r, a + b)
  {
  }

  lemma {:induction false} LearnSafely(chip: Chip, kind: Learner, w: World, n: nat)
    requires w.Valid(chip) && Clean(w.monitor) && Agrees(w)
    ensures SafelyAfter(w, Learn(chip, kind, w, n), if kind.LearnMultilayer? then 2 * n else n)
    ensures Learn(chip, kind, w, n).sent == w.sent
  {
    hide Learn, Step, World.Valid;
    LearnZero(chip, kind, w);
    Counts(chip, w);
    if n > 0 {
      LearnSafely(chip, kind, w, n - 1);
      LearnNext(chip, kind, w, n - 1);
      var before := Learn(chip, kind, w, n - 1);
      StepSafely(chip, kind, before);
      var each := if kind.LearnMultilayer? then 2 else 1;
      SafelyTransitive(w, before, Step(chip, kind, before), each * (n - 1), each);
    }
  }

  lemma PipelineSafely(chip: Chip, w: World)
    requires w.Valid(chip) && Clean(w.monitor)
    ensures SafelyAfter(w, Algorithm2(chip, w), 4)
    ensures Algorithm2(chip, w).sent == w.sent + [2, 2]
  {
    hide Drive, Uniformly;
    var w0 := Fill(Send(w, 2), 1, 0);
    DriveSafely(chip, w0, 0, 1, 2, 2, 100, 102);
    var w1 := Fill(Drive(chip, w0, 0, 1, 2, 2, 100, 102), 3, 0);
    DriveSafely(chip, w1, 1, 3, 2, 12, 1, 1024);
    var w2 := Fill(Drive(chip, w1, 1, 3, 2, 12, 1, 1024), 4, 0);
    DriveSafely(chip, w2, 3, 4, 2, 8, 1, 1024);
    var w3 := Drive(chip, w2, 3, 4, 2, 8, 1, 1024);
    DriveSafely(chip, w3, 4, 1, 2, 4, 1, 1024);
  }

  lemma LearningSafely(chip: Chip, kind: Learner, w: World)
    requires w.Valid(chip) && Clean(w.monitor) && Agrees(w)
    ensures SafelyAfter(w, LearningAlgorithm(chip, kind, w),
                        if kind.LearnMultilayer? then 2 * w.cnn.learnLoop else w.cnn.learnLoop)
    ensures LearningAlgorithm(chip, kind, w).sent == w.sent + [2, 2]
  {
    hide Learn;
    LearnSafely(chip, kind, Prepared(chip, kind, w), w.cnn.learnLoop);
  }

  lemma CommandSafely(chip: Chip, w: World, cmd: u8)
    requires w.Valid(chip) && Named(w.cnn, cmd) && Clean(w.monitor) && Agrees(w)
    ensures SafelyAfter(w, Command(chip, w, cmd), StartsOf(cmd, w.cnn.learnLoop))
    ensures Command(chip, w, cmd).sent == w.sent + Acknowledgements([cmd])
  {
    hide Drive, Algorithm2, LearningAlgorithm;
    assert [cmd][..0] == [];
    match cmd
    case 1 => DriveSafely(chip, Send(w, 2), 0, 1, 2, w.cnn.templateNo, w.cnn.iterations, w.cnn.ts);
    case 2 => PipelineSafely(chip, w);
    case 3 => LearningSafely(chip, Learn1d, w);
    case 4 => LearningSafely(chip, LearnMultilayer, w);
    case 5 => LearningSafely(chip, Learn2d, w);
    case _ =>
  }

  /** Over any sequence of commands, from any state the firmware can be in between commands: every bus access is safe,
      the processor is started exactly as often as the commands say, the host hears exactly two acknowledgements for
      each known command, image slots 0, 2 and 5 .. 19 and all templates but 1 and 2 are what they were. */
  lemma {:induction false} RunsSafely(chip: Chip, w: World, cmds: seq<u8>)
    requires w.Valid(chip) && (forall k :: 0 <= k < |cmds| ==> Named(w.cnn, cmds[k]))
    requires Clean(w.monitor) && Agrees(w)
    ensures SafelyAfter(w, Run(chip, w, cmds), StartsOfAll(cmds, w.cnn.learnLoop))
    ensures Run(chip, w, cmds).sent == w.sent + Acknowledgements(cmds)
  {
    hide Command, World.Valid;
    Counts(chip, w);
    if cmds != [] {
      var init, last := cmds[..|cmds| - 1], cmds[|cmds| - 1];
      RunsSafely(chip, w, init);
      var before := Run(chip, w, init);
      CommandSafely(chip, before, last);
      SafelyTransitive(w, before, Command(chip, before, last),
                       StartsOfAll(init, w.cnn.learnLoop), StartsOf(last, w.cnn.learnLoop));
      assert [last][..0] == [];
    }
  }

  // ------------------------------------------------------------------------------------------------------------------
  // What each command can change, for images of any size
  // ------------------------------------------------------------------------------------------------------------------

  /** The slots a command writes. */
  predicate WritesSlot(cmd: u8, s: nat) {
    (1 <= cmd <= 5 && s == 1) || (cmd == 2 && (s == 3 || s == 4))
  }

  /** The templates a command writes. */
  predicate WritesTemplate(cmd: u8, t: nat) {
    (3 <= cmd <= 5 && t == 1) || (cmd == 4 && t == 2)
  }

  /** From w to r only slots, templates and the error record a command may write, the processor and the monitor changed,
      and the bytes were sent. */
  predicate Within(cmd: u8, w: World, r: World, sent: seq<u8>) {
    && |r.pics| == |w.pics| == SLOTS && |r.templates| == |w.templates| == TEMPLATES
    && (forall s :: 0 <= s < SLOTS && !WritesSlot(cmd, s) ==> r.pics[s] == w.pics[s])
    && (forall t :: 0 <= t < TEMPLATES && !WritesTemplate(cmd, t) ==> r.templates[t] == w.templates[t])
    && (!(3 <= cmd <= 5) ==> r.errors == w.errors)
    && r == w.(pics := r.pics, templates := r.templates, errors := r.errors, hw := r.hw, monitor := r.monitor,
               sent := w.sent + sent)
  }

  lemma WithinTransitive(cmd: u8, w: World, m: World, r: World, a: seq<u8>, b: seq<u8>)
    requires Within(cmd, w, m, a) && Within(cmd, m, r, b)
    ensures Within(cmd, w, r, a + b)
  {
    assert w.sent + a + b == w.sent + (a + b);
  }

  lemma DriveWithin(chip: Chip, cmd: u8, w: World, u: nat, x: nat, t: nat, iterations: u16, ts: u16)
    requires w.Valid(chip) && u < SLOTS && x < SLOTS && t < TEMPLATES && WritesSlot(cmd, x)
    ensures Within(cmd, w, Drive(chip, w, u, x, 2, t, iterations, ts), [])
  {
    hide Drive;
    DriverFrame(chip, w, u, x, 2, t, iterations, ts);
  }

  lemma FillWithin(chip: Chip, cmd: u8, w: World, x: nat)
    requires w.Valid(chip) && x < SLOTS && WritesSlot(cmd, x)
    ensures Within(cmd, w, Fill(w, x, 0), []) && Fill(w, x, 0).Valid(chip)
  {
    hide Uniformly;
  }

  lemma SendWithin(chip: Chip, cmd: u8, w: World)
    requires w.Valid(chip)
    ensures Within(cmd, w, Send(w, 2), [2]) && Send(w, 2).Valid(chip)
  {
  }

  lemma PipelineWithin(chip: Chip, w: World)
    requires w.Valid(chip)
    ensures Within(2, w, Algorithm2(chip, w), [2, 2])
  {
    hide Drive, Fill, Within, Send;
    var w0 := Send(w, 2);
    SendWithin(chip, 2, w);
    FillWithin(chip, 2, w0, 1);
    var w1 := Fill(w0, 1, 0);
    DriveWithin(chip, 2, w1, 0, 1, 2, 100, 102);
    var w2 := Drive(chip, w1, 0, 1, 2, 2, 100, 102);
    FillWithin(chip, 2, w2, 3);
    var w3 := Fill(w2, 3, 0);
    DriveWithin(chip, 2, w3, 1, 3, 12, 1, 1024);
    var w4 := Drive(chip, w3, 1, 3, 2, 12, 1, 1024);
    FillWithin(chip, 2, w4, 4);
    var w5 := Fill(w4, 4, 0);
    DriveWithin(chip, 2, w5, 3, 4, 8, 1, 1024);
    var w6 := Drive(chip, w5, 3, 4, 2, 8, 1, 1024);
    DriveWithin(chip, 2, w6, 4, 1, 4, 1, 1024);
    var w7 := Drive(chip, w6, 4, 1, 2, 4, 1, 1024);
    SendWithin(chip, 2, w7);
    WithinTransitive(2, w, w0, w1, [2], []);
    WithinTransitive(2, w, w1, w2, [2] + [], []);
    WithinTransitive(2, w, w2, w3, [2] + [] + [], []);
    WithinTransitive(2, w, w3, w4, [2] + [] + [] + [], []);
    WithinTransitive(2, w, w4, w5, [2] + [] + [] + [] + [], []);
    WithinTransitive(2, w, w5, w6, [2] + [] + [] + [] + [] + [], []);
    WithinTransitive(2, w, w6, w7, [2] + [] + [] + [] + [] + [] + [], []);
    WithinTransitive(2, w, w7, Send(w7, 2), [2] + [] + [] + [] + [] + [] + [] + [], [2]);
    assert [2] + [] + [] + [] + [] + [] + [] + [] + [2] == [2, 2];
  }

  function CommandOf(kind: Learner): u8 {
    match kind
    case Learn1d => 3
    case LearnMultilayer => 4
    case Learn2d => 5
  }

  lemma StepWithin(chip: Chip, kind: Learner, w: World)
    requires w.Valid(chip)
    ensures Within(CommandOf(kind), w, Step(chip, kind, w), [])
  {
    hide Drive, ScaledErrors, Updated1d, Updated2d;
    TrialFrame(chip, w, 1);
    if kind.LearnMultilayer? {
      TrialFrame(chip, Step3(chip, w), 2);
    }
  }

  lemma {:induction false} LearnWithin(chip: Chip, kind: Learner, w: World, n: nat)
    requires w.Valid(chip)
    ensures Within(CommandOf(kind), w, Learn(chip, kind, w, n), [])
  {
    hide Learn, Step, World.Valid;
    LearnZero(chip, kind, w);
    Counts(chip, w);
    if n > 0 {
      LearnWithin(chip, kind, w, n - 1);
      LearnNext(chip, kind, w, n - 1);
      var before := Learn(chip, kind, w, n - 1);
      StepWithin(chip, kind, before);
      WithinTransitive(CommandOf(kind), w, before, Step(chip, kind, before), [], []);
    }
  }

  lemma LearningWithin(chip: Chip, kind: Learner, w: World)
    requires w.Valid(chip)
    ensures Within(CommandOf(kind), w, LearningAlgorithm(chip, kind, w), [2, 2])
  {
    hide Learn;
    LearnWithin(chip, kind, Prepared(chip, kind, w), w.cnn.learnLoop);
  }

  /** The frame of every command, for images of any size: direct CNN writes slot 1; the pipeline slots 1, 3 and 4; the
      learning commands slot 1, template 1 (and 2) and the error record; an unknown command nothing at all. */
  lemma CommandFrame(chip: Chip, w: World, cmd: u8)
    requires w.Valid(chip) && Named(w.cnn, cmd)
    ensures Within(cmd, w, Command(chip, w, cmd), Acknowledgements([cmd]))
    ensures !(1 <= cmd <= 5) ==> Command(chip, w, cmd) == w
  {
    hide Algorithm1, Algorithm2, LearningAlgorithm;
    assert [cmd][..0] == [];
    match cmd
    case 1 => DirectFrame(chip, w);
    case 2 => PipelineWithin(chip, w);
    case 3 => LearningWithin(chip, Learn1d, w);
    case 4 => LearningWithin(chip, LearnMultilayer, w);
    case 5 => LearningWithin(chip, Learn2d, w);
    case _ =>
  }

  // ------------------------------------------------------------------------------------------------------------------
  // Runs of main: any sequence of host requests
  // ------------------------------------------------------------------------------------------------------------------

  /** The host asks for the errors only when the processor has finished a run. */
  predicate Orderly(w: World) {
    w.inbox != [] && w.inbox[0] == 4 ==> w.hw.phase.Done?
  }

  /** ... in every state of a run that is followed by another. */
  predicate AllOrderly(ws: seq<World>) {
    forall k :: 0 <= k < |ws| - 1 ==> Orderly(ws[k])
  }

  lemma AllOrderlyNext(ws: seq<World>)
    requires |ws| > 1
    ensures AllOrderly(ws) <==> Orderly(ws[0]) && AllOrderly(ws[1..])
  {
    hide Orderly;
    if Orderly(ws[0]) && AllOrderly(ws[1..]) {
      assert forall k :: 1 <= k < |ws| - 1 ==> ws[k] == ws[1..][k - 1];
    }
    if AllOrderly(ws) {
      assert forall k :: 0 <= k < |ws| - 2 ==> ws[1..][k] == ws[k + 1];
    }
  }

  lemma IsRunNext(chip: Chip, ws: seq<World>)
    requires IsRun(chip, ws) && |ws| > 1
    ensures ws[0].Valid(chip) && Servable(ws[0]) && ws[1] == Served(chip, ws[0]) && IsRun(chip, ws[1..])
  {
    hide World.Valid, Servable, Served;
    assert forall k :: 0 <= k < |ws| - 1 ==> ws[1..][k] == ws[k + 1];
  }

  /** What every turn of main keeps. */
  predicate Invariant(w: World, first: World) {
    && Clean(w.monitor) && Agrees(w)
    && |w.templates| == |first.templates| == TEMPLATES
    && (forall t :: 0 <= t < TEMPLATES && t != 1 && t != 2 ==> w.templates[t] == first.templates[t])
  }

  lemma HeaderSafely(chip: Chip, w: World)
    requires w.Valid(chip) && |w.inbox| >= 14 && Clean(w.monitor) && Agrees(w)
    ensures var r := HeaderReceived(chip, w);
      Clean(r.monitor) && Agrees(r) && r.templates == w.templates
  {
    hide BlackImages;
  }

  lemma TurnKeepsInvariant(chip: Chip, w: World, first: World)
    requires w.Valid(chip) && Servable(w) && Orderly(w) && Invariant(w, first)
    ensures Invariant(Served(chip, w), first)
  {
    hide HeaderReceived, Command, Decoded, Encoded, ScaledErrors;
    var m := Read(w, 1);
    if w.inbox[0] == 0 {
      HeaderSafely(chip, m);
    } else if w.inbox[0] == 2 {
      CommandSafely(chip, Read(m, 1), m.inbox[0]);
    }
  }

  lemma {:induction false} RunKeepsInvariant(chip: Chip, ws: seq<World>, k: nat)
    requires IsRun(chip, ws) && Invariant(ws[0], ws[0]) && k < |ws|
    requires AllOrderly(ws)
    ensures Invariant(ws[k], ws[0])
  {
    hide Served, Servable;
    if k > 0 {
      RunKeepsInvariant(chip, ws, k - 1);
      TurnKeepsInvariant(chip, ws[k - 1], ws[0]);
    }
  }

  lemma DisorderlyIsUnsafe(chip: Chip, w: World)
    requires w.Valid(chip) && Servable(w) && Agrees(w) && !Orderly(w)
    ensures !Served(chip, w).monitor.safe
  {
    hide ScaledErrors;
  }

  lemma FirstDisorder(ws: seq<World>) returns (k: nat)
    requires !AllOrderly(ws)
    ensures k < |ws| - 1 && !Orderly(ws[k]) && forall j :: 0 <= j < k ==> Orderly(ws[j])
  {
    k := 0;
    while Orderly(ws[k])
      invariant k < |ws| - 1 && forall j :: 0 <= j < k ==> Orderly(ws[j])
      decreases |ws| - k
    {
      k := k + 1;
    }
  }

  /** Up to the first disorderly request the invariant holds. */
  lemma OrderlyPrefix(chip: Chip, ws: seq<World>, k: nat)
    requires IsRun(chip, ws) && Invariant(ws[0], ws[0]) && k < |ws| - 1
    requires forall j :: 0 <= j < k ==> Orderly(ws[j])
    ensures Invariant(ws[k], ws[0])
  {
    hide Served, Servable;
    var prefix := ws[..k + 1];
    RunKeepsInvariant(chip, prefix, k);
  }

  /** Every bus access of a run of main is safe exactly when no request finds the processor in the wrong state. */
  lemma SafeExactlyWhenOrderly(chip: Chip, ws: seq<World>)
    requires IsRun(chip, ws) && Invariant(ws[0], ws[0])
    ensures (forall k :: 0 <= k < |ws| ==> ws[k].monitor.safe) <==> AllOrderly(ws)
  {
    if AllOrderly(ws) {
      forall k | 0 <= k < |ws|
        ensures ws[k].monitor.safe
      {
        RunKeepsInvariant(chip, ws, k);
      }
    } else {
      var k := FirstDisorder(ws);
      OrderlyPrefix(chip, ws, k);
      DisorderlyIsUnsafe(chip, ws[k]);
      assert !ws[k + 1].monitor.safe;
    }
  }

  // ------------------------------------------------------------------------------------------------------------------
  // The same, as a condition on the bytes the host sends
  // ------------------------------------------------------------------------------------------------------------------

  /** What a host knows from its own requests: whether the processor was started since the last header, and the image
      size and the number of learning turns of that header. */
  datatype View = View(ran: bool, width: u16, height: u16, loop: u16)

  function RequestLength(v: View, bytes: seq<u8>): nat
    requires bytes != []
  {
    match bytes[0]
    case 0 => 15
    case 1 => 2 + 2 * (v.width * v.height)
    case 2 => 2
    case 3 => 2
    case 5 => 3
    case _ => 1
  }

  /** A header forgets the runs; a command that starts the processor counts as one. */
  function Heard(v: View, bytes: seq<u8>): View
    requires bytes != []
  {
    match bytes[0]
    case 0 => View(false, WordAt(bytes[1..], 0), WordAt(bytes[1..], 1), WordAt(bytes[1..], 5))
    case 2 => if |bytes| > 1 && StartsOf(bytes[1], v.loop) > 0 then v.(ran := true) else v
    case _ => v
  }

  /** Among the first n requests of the bytes, each request for errors comes after a run since the last header. */
  predicate Polite(v: View, bytes: seq<u8>, n: nat)
    decreases n
  {
    n > 0 && bytes != [] && RequestLength(v, bytes) <= |bytes| ==>
      && (bytes[0] == 4 ==> v.ran)
      && Polite(Heard(v, bytes), bytes[RequestLength(v, bytes)..], n - 1)
  }

  function ViewOf(w: World): View {
    View(w.hw.phase.Done?, w.width, w.height, w.cnn.learnLoop)
  }

  lemma DriveFinishes(chip: Chip, w: World, u: nat, x: nat, ideal: nat, t: nat, iterations: u16, ts: u16)
    requires w.Valid(chip) && u < SLOTS && x < SLOTS && ideal < SLOTS && t < TEMPLATES
    ensures var r := Drive(chip, w, u, x, ideal, t, iterations, ts);
      r.hw.phase.Done? && r.width == w.width && r.height == w.height && r.inbox == w.inbox
  {
  }

  lemma LearnFinishes(chip: Chip, kind: Learner, w: World, n: nat)
    requires w.Valid(chip)
    ensures var r := Learn(chip, kind, w, n);
      && (r.hw.phase.Done? <==> n > 0 || w.hw.phase.Done?)
      && r.width == w.width && r.height == w.height && r.inbox == w.inbox
  {
    hide Learn, Drive, ScaledErrors, Updated1d, Updated2d;
    LearnZero(chip, kind, w);
    if n > 0 {
      LearnFinishes(chip, kind, w, n - 1);
      LearnNext(chip, kind, w, n - 1);
      var before := Learn(chip, kind, w, n - 1);
      DriveFinishes(chip, before, 0, 1, 2, 1, before.cnn.iterations, before.cnn.ts);
      if kind.LearnMultilayer? {
        DriveFinishes(chip, Step3(chip, before), 0, 1, 2, 2, before.cnn.iterations, before.cnn.ts);
      }
    }
  }

  lemma PipelineFinishes(chip: Chip, w: World)
    requires w.Valid(chip)
    ensures var r := Algorithm2(chip, w);
      r.hw.phase.Done? && r.width == w.width && r.height == w.height && r.inbox == w.inbox
  {
    hide Drive, Uniformly;
    var w0 := Fill(Send(w, 2), 1, 0);
    DriveFinishes(chip, w0, 0, 1, 2, 2, 100, 102);
    var w1 := Fill(Drive(chip, w0, 0, 1, 2, 2, 100, 102), 3, 0);
    DriveFinishes(chip, w1, 1, 3, 2, 12, 1, 1024);
    var w2 := Fill(Drive(chip, w1, 1, 3, 2, 12, 1, 1024), 4, 0);
    DriveFinishes(chip, w2, 3, 4, 2, 8, 1, 1024);
    var w3 := Drive(chip, w2, 3, 4, 2, 8, 1, 1024);
    DriveFinishes(chip, w3, 4, 1, 2, 4, 1, 1024);
  }

  /** After a command the processor has a finished run exactly when the command started it or one was there before. */
  lemma CommandFinishes(chip: Chip, w: World, cmd: u8)
    requires w.Valid(chip) && Named(w.cnn, cmd)
    ensures var r := Command(chip, w, cmd);
      && (r.hw.phase.Done? <==> StartsOf(cmd, w.cnn.learnLoop) > 0 || w.hw.phase.Done?)
      && r.width == w.width && r.height == w.height && r.inbox == w.inbox
  {
    hide Drive, Learn, Uniformly;
    match cmd
    case 1 => DriveFinishes(chip, Send(w, 2), 0, 1, 2, w.cnn.templateNo, w.cnn.iterations, w.cnn.ts);
    case 2 => PipelineFinishes(chip, w);
    case 3 => LearnFinishes(chip, Learn1d, Prepared(chip, Learn1d, w), w.cnn.learnLoop);
    case 4 => LearnFinishes(chip, LearnMultilayer, Prepared(chip, LearnMultilayer, w), w.cnn.learnLoop);
    case 5 => LearnFinishes(chip, Learn2d, Prepared(chip, Learn2d, w), w.cnn.learnLoop);
    case _ =>
  }

  /** One turn of main: what the host can conclude from its request is what happened. In particular the processor has a
      finished run after a header never, after a command if the command starts it or it had one, and otherwise exactly
      if it had one. */
  lemma TurnIsHeard(chip: Chip, w: World)
    requires w.Valid(chip) && Servable(w)
    ensures RequestLength(ViewOf(w), w.inbox) <= |w.inbox|
    ensures var r := Served(chip, w);
      ViewOf(r) == Heard(ViewOf(w), w.inbox) && r.inbox == w.inbox[RequestLength(ViewOf(w), w.inbox)..]
  {
    hide Command, Decoded, Encoded, ScaledErrors, BlackImages, WordAt;
    if w.inbox[0] == 2 {
      CommandFinishes(chip, Read(Read(w, 1), 1), w.inbox[1]);
    }
  }

  lemma RanIsDone(w: World)
    ensures ViewOf(w).ran <==> w.hw.phase.Done?
  {
  }

  lemma HasRequest(w: World)
    requires Servable(w)
    ensures w.inbox != []
  {
  }

  lemma IsRunHasStates(chip: Chip, ws: seq<World>)
    requires IsRun(chip, ws)
    ensures ws != []
  {
  }

  lemma AllOrderlyAlone(ws: seq<World>)
    requires |ws| <= 1
    ensures AllOrderly(ws)
  {
  }

  lemma {:induction false} OrderlyExactlyWhenPolite(chip: Chip, ws: seq<World>)
    requires IsRun(chip, ws)
    ensures AllOrderly(ws) <==> Polite(ViewOf(ws[0]), ws[0].inbox, |ws| - 1)
    decreases |ws|
  {
    hide IsRun, World.Valid, Servable, Served, Heard, RequestLength, ViewOf, AllOrderly;
    if |ws| > 1 {
      IsRunNext(chip, ws);
      TurnIsHeard(chip, ws[0]);
      AllOrderlyNext(ws);
      OrderlyExactlyWhenPolite(chip, ws[1..]);
      RanIsDone(ws[0]);
      HasRequest(ws[0]);
    } else {
      IsRunHasStates(chip, ws);
      AllOrderlyAlone(ws);
    }
  }

  /** Over every run of main, whatever the host sends and whatever sizes it chooses on the way: every bus access is safe
      in every state if and only if, among the requests that were served, the host asked for the errors only after a
      command that started the processor and not between a header and the next such command. */
  lemma RunSafeExactly(chip: Chip, ws: seq<World>)
    requires IsRun(chip, ws) && Invariant(ws[0], ws[0])
    ensures (forall k :: 0 <= k < |ws| ==> ws[k].monitor.safe) <==> Polite(ViewOf(ws[0]), ws[0].inbox, |ws| - 1)
  {
    SafeExactlyWhenOrderly(chip, ws);
    OrderlyExactlyWhenPolite(chip, ws);
  }

  /** init_system establishes the invariant from the power-up state, so both results hold of everything that follows. */
  lemma ResetIsClean(chip: Chip, templates: seq<Template>, errors: Errors<s16>, hw: Hw,
                     sent: seq<u8>, inbox: seq<u8>, cmds: seq<u8>)
    requires |templates| == TEMPLATES && hw.Sized(chip) && Quiet(hw)
    ensures var w := Initialised(chip, templates, errors, hw, Monitor(Held, true, 0, 0, 0, NOTHING), sent, inbox);
      && w.Valid(chip) && Invariant(w, w) && (forall k :: 0 <= k < |cmds| ==> Named(w.cnn, cmds[k]))
      && Run(chip, w, cmds).monitor.safe
      && Run(chip, w, cmds).monitor.starts == StartsOfAll(cmds, 100)
  {
    hide Run, BlackImages;
    var w := Initialised(chip, templates, errors, hw, Monitor(Held, true, 0, 0, 0, NOTHING), sent, inbox);
    RunsSafely(chip, w, cmds);
  }

  /** The state after init_system, field by field. */
  lemma ResetState(chip: Chip, templates: seq<Template>, errors: Errors<s16>, hw: Hw, m: Monitor,
                   sent: seq<u8>, inbox: seq<u8>)
    ensures var w := Initialised(chip, templates, errors, hw, m, sent, inbox);
      && w.width == w.height == 128
      && |w.pics| == SLOTS && (forall s :: 0 <= s < SLOTS ==> Solid(w.pics[s], 128, 128, 0))
      && w.cnn.ts == 1 && w.cnn.iterations == 3 && w.cnn.templateNo == 0
      && w.cnn.learnLoop == 100 && w.cnn.learnRate == 10
      && w.templates == templates && w.errors == errors && w.sent == sent && w.inbox == inbox
      && w.hw == hw.(phase := InReset) && w.monitor.known.Held? && w.monitor.starts == m.starts
  {
    hide BlackImages;
    BlackPixels(128, 128);
  }

  lemma ResetView(chip: Chip, templates: seq<Template>, errors: Errors<s16>, hw: Hw, sent: seq<u8>, inbox: seq<u8>)
    requires |templates| == TEMPLATES && hw.Sized(chip) && Quiet(hw)
    ensures var w := Initialised(chip, templates, errors, hw, Monitor(Held, true, 0, 0, 0, NOTHING), sent, inbox);
      Invariant(w, w) && ViewOf(w) == View(false, 128, 128, 100) && w.inbox == inbox
  {
    hide BlackImages;
    ResetIsClean(chip, templates, errors, hw, sent, inbox, []);
  }

  /** From power-up on, the condition is on the bytes alone. */
  lemma RunFromResetSafeExactly(chip: Chip, templates: seq<Template>, errors: Errors<s16>, hw: Hw,
                                sent: seq<u8>, inbox: seq<u8>, ws: seq<World>)
    requires |templates| == TEMPLATES && hw.Sized(chip) && Quiet(hw)
    requires IsRun(chip, ws)
    requires ws[0] == Initialised(chip, templates, errors, hw, Monitor(Held, true, 0, 0, 0, NOTHING), sent, inbox)
    ensures (forall k :: 0 <= k < |ws| ==> ws[k].monitor.safe) <==> Polite(View(false, 128, 128, 100), inbox, |ws| - 1)
  {
    hide *;
    ResetView(chip, templates, errors, hw, sent, inbox);
    RunSafeExactly(chip, ws);
  }

  /** The shortest unsafe run: the host's first byte asks for the errors. */
  lemma ErrorsFirstIsUnsafe(chip: Chip, templates: seq<Template>, errors: Errors<s16>, hw: Hw, sent: seq<u8>)
    requires |templates| == TEMPLATES && hw.Sized(chip) && Quiet(hw)
    ensures var w := Initialised(chip, templates, errors, hw, Monitor(Held, true, 0, 0, 0, NOTHING), sent, [4]);
      w.Valid(chip) && Servable(w) && IsRun(chip, [w, Served(chip, w)]) && !Orderly(w) && !Served(chip, w).monitor.safe
  {
    hide BlackImages, ScaledErrors;
  }
}
