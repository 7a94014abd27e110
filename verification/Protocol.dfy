/** What the monitor means: its verdict on a sequence of bus accesses, in terms of the accesses themselves. */
module Protocol {
  import opened Words
  import opened Grids
  import opened Hardware

  const POWER_UP: Monitor := Monitor(Held, true, 0, 0, 0, NOTHING)

  /** The monitor after a sequence of accesses from power-up. */
  function Observed(trace: seq<Access>): Monitor {
    if trace == [] then POWER_UP else Observed(trace[..|trace| - 1]).Watch(trace[|trace| - 1])
  }

  lemma ObservedNext(trace: seq<Access>, a: Access)
    ensures Observed(trace + [a]) == Observed(trace).Watch(a)
  {
    assert (trace + [a])[..|trace + [a]| - 1] == trace;
  }

  // ------------------------------------------------------------------------------------------------------------------
  // The accesses
  // ------------------------------------------------------------------------------------------------------------------

  /** A store of a number to a command. */
  predicate Sets(a: Access, command: nat) {
    a.WrCommand? && a.word / 0x1_0000 == command
  }

  predicate PutsInReset(a: Access) {
    Sets(a, 6) && a.word % 2 == 1
  }

  predicate LiftsReset(a: Access) {
    Sets(a, 6) && a.word % 2 == 0
  }

  predicate ShowsReady(a: Access) {
    a.RdFeedback? && a.ready
  }

  predicate IsStore(a: Access) {
    a.WrCommand? || a.WrCoeff? || a.WrCache?
  }

  predicate ReadsResult(a: Access) {
    a.RdCache? || a.RdError?
  }

  predicate Pulses(a: Access, bank: Bank) {
    a.WrCache? && a.bank == bank && a.pin.WriteEnable? && a.data % 2 == 1
  }

  /** In reset from the start and after each store that puts it there; busy from the store that lifts the reset until
      ready is seen. */
  function StateAfter(trace: seq<Access>): Known {
    if trace == [] then Held else
      var before, a := StateAfter(trace[..|trace| - 1]), trace[|trace| - 1];
      if PutsInReset(a) then Held
      else if LiftsReset(a) && before.Held? then Busy
      else if ShowsReady(a) && before.Busy? then Ready
      else before
  }

  /** Access k starts the processor. */
  predicate StartsAt(trace: seq<Access>, k: nat) {
    k < |trace| && LiftsReset(trace[k]) && StateAfter(trace[..k]).Held?
  }

  /** How often the processor was started. */
  function Starts(trace: seq<Access>): nat {
    if trace == [] then 0
    else Starts(trace[..|trace| - 1]) + if StartsAt(trace, |trace| - 1) then 1 else 0
  }

  /** The number of accesses up to and with the last start. */
  function LastStart(trace: seq<Access>): (n: nat)
    ensures n <= |trace|
  {
    if trace == [] then 0
    else if StartsAt(trace, |trace| - 1) then |trace|
    else LastStart(trace[..|trace| - 1])
  }

  /** Since the last start a command, or a coefficient register, was written. */
  predicate SetSince(trace: seq<Access>, command: nat) {
    exists k :: LastStart(trace) <= k < |trace| && Sets(trace[k], command)
  }

  predicate CoefficientSince(trace: seq<Access>, c: CoeffReg) {
    exists k :: LastStart(trace) <= k < |trace| && trace[k] == WrCoeff(c)
  }

  /** The write-enable pulses of a RAM since the last start. */
  function PulsesSince(trace: seq<Access>, bank: Bank): nat {
    if trace == [] || StartsAt(trace, |trace| - 1) then 0
    else PulsesSince(trace[..|trace| - 1], bank) + if Pulses(trace[|trace| - 1], bank) then 1 else 0
  }

  /** The last number stored to a command, ever. */
  function LastSet(trace: seq<Access>, command: nat): u16 {
    if trace == [] then 0
    else if Sets(trace[|trace| - 1], command) then trace[|trace| - 1].word % 0x1_0000
    else LastSet(trace[..|trace| - 1], command)
  }

  predicate Exists(c: CoeffReg) {
    c.CoeffA? || c.CoeffB? ==> InGrid(c.i, c.j)
  }

  /** Everything a run needs was written since the last start: the four configuration registers, every coefficient
      register, and one pulse for each pixel of the configured size to each RAM. */
  ghost predicate Prepared(trace: seq<Access>) {
    && SetSince(trace, 1) && SetSince(trace, 2) && SetSince(trace, 3) && SetSince(trace, 4)
    && (forall c :: Exists(c) ==> CoefficientSince(trace, c))
    && var pixels := LastSet(trace, 1) * LastSet(trace, 2);
       PulsesSince(trace, BankU) == PulsesSince(trace, BankX) == PulsesSince(trace, BankIdeal) == pixels
  }

  /** One access is safe after others: no store to a busy processor, no result read before ready was seen, no start
      before everything was written. */
  ghost predicate SafeNext(past: seq<Access>, a: Access) {
    && (IsStore(a) ==> !StateAfter(past).Busy?)
    && (ReadsResult(a) ==> StateAfter(past).Ready?)
    && (LiftsReset(a) && StateAfter(past).Held? ==> Prepared(past))
  }

  ghost predicate SafeTrace(trace: seq<Access>) {
    forall k :: 0 <= k < |trace| ==> SafeNext(trace[..k], trace[k])
  }

  // ------------------------------------------------------------------------------------------------------------------
  // The monitor keeps all of this
  // ------------------------------------------------------------------------------------------------------------------

  function Marked(coeffs: Coeffs<bool>, c: CoeffReg): bool
    requires Exists(c)
  {
    match c
    case CoeffA(i, j) => coeffs.a.At(i, j)
    case CoeffB(i, j) => coeffs.b.At(i, j)
    case CoeffI => coeffs.i
    case CoeffX => coeffs.x
    case CoeffU => coeffs.u
  }

  lemma MarkedPut(coeffs: Coeffs<bool>, d: CoeffReg, c: CoeffReg)
    requires Exists(c)
    ensures Marked(PutCoeff(coeffs, d, true), c) <==> d == c || Marked(coeffs, c)
    ensures !Marked(Same(false), c)
  {
  }

  lemma NotAll(coeffs: Coeffs<bool>, c: CoeffReg)
    requires Exists(c) && !Marked(coeffs, c)
    ensures coeffs != Same(true)
  {
  }

  lemma AllEntries(g: Grid<bool>)
    requires forall i: nat, j: nat :: i < 3 && j < 3 ==> g.At(i, j)
    ensures g == Uniform(true)
  {
    assert g.At(0, 0) && g.At(0, 1) && g.At(0, 2) && g.At(1, 0) && g.At(1, 1) && g.At(1, 2);
    assert g.At(2, 0) && g.At(2, 1) && g.At(2, 2);
  }

  lemma GridMarked(coeffs: Coeffs<bool>)
    requires forall c :: Exists(c) ==> Marked(coeffs, c)
    ensures coeffs.a == coeffs.b == Uniform(true)
  {
    forall i: nat, j: nat | i < 3 && j < 3
      ensures coeffs.a.At(i, j) && coeffs.b.At(i, j)
    {
      assert Marked(coeffs, CoeffA(i, j)) && Marked(coeffs, CoeffB(i, j));
    }
    AllEntries(coeffs.a);
    AllEntries(coeffs.b);
  }

  lemma AllMarked(coeffs: Coeffs<bool>)
    ensures coeffs == Same(true) <==> forall c :: Exists(c) ==> Marked(coeffs, c)
  {
    if forall c :: Exists(c) ==> Marked(coeffs, c) {
      GridMarked(coeffs);
      assert Marked(coeffs, CoeffI) && Marked(coeffs, CoeffX) && Marked(coeffs, CoeffU);
    } else {
      hide Grid.At;
      var c :| Exists(c) && !Marked(coeffs, c);
      NotAll(coeffs, c);
    }
  }

  lemma SinceNext(trace: seq<Access>, a: Access)
    ensures LastStart(trace + [a]) ==
      if LiftsReset(a) && StateAfter(trace).Held? then |trace| + 1 else LastStart(trace)
    ensures StateAfter(trace + [a]) ==
      if PutsInReset(a) then Held
      else if LiftsReset(a) && StateAfter(trace).Held? then Busy
      else if ShowsReady(a) && StateAfter(trace).Busy? then Ready
      else StateAfter(trace)
  {
    assert (trace + [a])[..|trace|] == trace;
  }

  lemma StartsNext(trace: seq<Access>, a: Access)
    ensures Starts(trace + [a]) == Starts(trace) + if LiftsReset(a) && StateAfter(trace).Held? then 1 else 0
  {
    assert (trace + [a])[..|trace|] == trace;
  }

  lemma SetNext(trace: seq<Access>, a: Access, command: nat)
    ensures SetSince(trace + [a], command) <==>
      !(LiftsReset(a) && StateAfter(trace).Held?) && (Sets(a, command) || SetSince(trace, command))
    ensures LastSet(trace + [a], command) == if Sets(a, command) then a.word % 0x1_0000 else LastSet(trace, command)
  {
    hide Sets, LiftsReset, StateAfter, LastStart;
    SinceNext(trace, a);
    var t := trace + [a];
    assert t[..|trace|] == trace && t[|trace|] == a;
    if SetSince(trace, command) && !(LiftsReset(a) && StateAfter(trace).Held?) {
      var k :| LastStart(trace) <= k < |trace| && Sets(trace[k], command);
      assert t[k] == trace[k];
    }
    if SetSince(t, command) && !Sets(a, command) {
      var k :| LastStart(t) <= k < |t| && Sets(t[k], command);
      assert t[k] == trace[k];
    }
  }

  lemma CoefficientNext(trace: seq<Access>, a: Access, c: CoeffReg)
    ensures CoefficientSince(trace + [a], c) <==>
      !(LiftsReset(a) && StateAfter(trace).Held?) && (a == WrCoeff(c) || CoefficientSince(trace, c))
  {
    hide LiftsReset, StateAfter, LastStart;
    SinceNext(trace, a);
    var t := trace + [a];
    assert t[..|trace|] == trace && t[|trace|] == a;
    if CoefficientSince(trace, c) && !(LiftsReset(a) && StateAfter(trace).Held?) {
      var k :| LastStart(trace) <= k < |trace| && trace[k] == WrCoeff(c);
      assert t[k] == trace[k];
    }
    if CoefficientSince(t, c) && a != WrCoeff(c) {
      var k :| LastStart(t) <= k < |t| && t[k] == WrCoeff(c);
      assert t[k] == trace[k];
    }
  }

  lemma PulsesNext(trace: seq<Access>, a: Access, bank: Bank)
    ensures PulsesSince(trace + [a], bank) ==
      if LiftsReset(a) && StateAfter(trace).Held? then 0
      else PulsesSince(trace, bank) + if Pulses(a, bank) then 1 else 0
  {
    assert (trace + [a])[..|trace|] == trace;
  }

  /** What the monitor remembers is what the trace says. */
  ghost predicate Remembers(m: Monitor, trace: seq<Access>) {
    && m.known == StateAfter(trace) && m.starts == Starts(trace)
    && m.width == LastSet(trace, 1) && m.height == LastSet(trace, 2)
    && (m.tally.width <==> SetSince(trace, 1)) && (m.tally.height <==> SetSince(trace, 2))
    && (m.tally.ts <==> SetSince(trace, 3)) && (m.tally.iterations <==> SetSince(trace, 4))
    && (forall c :: Exists(c) ==> (Marked(m.tally.coeffs, c) <==> CoefficientSince(trace, c)))
    && m.tally.u == PulsesSince(trace, BankU) && m.tally.x == PulsesSince(trace, BankX)
    && m.tally.ideal == PulsesSince(trace, BankIdeal)
  }

  lemma LowBit(word: u32)
    ensures word % 0x1_0000 % 2 == word % 2
  {
  }

  lemma CommandFields(m: Monitor, word: u32)
    ensures var r, a := m.Watch(WrCommand(word)), WrCommand(word);
      var start := LiftsReset(a) && m.known.Held?;
      && r.known == (if PutsInReset(a) then Held else if start then Busy else m.known)
      && r.starts == m.starts + (if start then 1 else 0)
      && r.width == (if Sets(a, 1) then word % 0x1_0000 else m.width)
      && r.height == (if Sets(a, 2) then word % 0x1_0000 else m.height)
      && r.tally == if start then NOTHING else m.tally.(
           width := m.tally.width || Sets(a, 1), height := m.tally.height || Sets(a, 2),
           ts := m.tally.ts || Sets(a, 3), iterations := m.tally.iterations || Sets(a, 4))
  {
    hide Tally.Complete;
    LowBit(word);
  }

  lemma CoefficientsStep(m: Monitor, trace: seq<Access>, a: Access, c: CoeffReg)
    requires m.known == StateAfter(trace) && Exists(c) && (Marked(m.tally.coeffs, c) <==> CoefficientSince(trace, c))
    ensures Marked(m.Watch(a).tally.coeffs, c) <==> CoefficientSince(trace + [a], c)
  {
    hide StateAfter, CoefficientSince, Marked, PutCoeff, Exists, Tally.Complete, Monitor.Commanded;
    CoefficientNext(trace, a, c);
    MarkedPut(m.tally.coeffs, if a.WrCoeff? then a.coeff else CoeffI, c);
    if a.WrCommand? {
      CommandFields(m, a.word);
    }
  }

  lemma CommandsStep(m: Monitor, trace: seq<Access>, a: Access)
    requires m.known == StateAfter(trace) && m.starts == Starts(trace)
    requires m.width == LastSet(trace, 1) && m.height == LastSet(trace, 2)
    requires (m.tally.width <==> SetSince(trace, 1)) && (m.tally.height <==> SetSince(trace, 2))
    requires (m.tally.ts <==> SetSince(trace, 3)) && (m.tally.iterations <==> SetSince(trace, 4))
    ensures var r, t := m.Watch(a), trace + [a];
      && r.known == StateAfter(t) && r.starts == Starts(t)
      && r.width == LastSet(t, 1) && r.height == LastSet(t, 2)
      && (r.tally.width <==> SetSince(t, 1)) && (r.tally.height <==> SetSince(t, 2))
      && (r.tally.ts <==> SetSince(t, 3)) && (r.tally.iterations <==> SetSince(t, 4))
  {
    hide StateAfter, SetSince, LastSet, PutCoeff, Starts, Tally.Complete, Monitor.Commanded;
    SinceNext(trace, a);
    StartsNext(trace, a);
    SetNext(trace, a, 1);
    SetNext(trace, a, 2);
    SetNext(trace, a, 3);
    SetNext(trace, a, 4);
    if a.WrCommand? {
      CommandFields(m, a.word);
    }
  }

  lemma PulsesStep(m: Monitor, trace: seq<Access>, a: Access)
    requires m.known == StateAfter(trace) && m.tally.u == PulsesSince(trace, BankU)
    requires m.tally.x == PulsesSince(trace, BankX) && m.tally.ideal == PulsesSince(trace, BankIdeal)
    ensures var r, t := m.Watch(a), trace + [a];
      && r.tally.u == PulsesSince(t, BankU) && r.tally.x == PulsesSince(t, BankX)
      && r.tally.ideal == PulsesSince(t, BankIdeal)
  {
    hide StateAfter, PulsesSince, PutCoeff, Tally.Complete, Monitor.Commanded;
    PulsesNext(trace, a, BankU);
    PulsesNext(trace, a, BankX);
    PulsesNext(trace, a, BankIdeal);
    if a.WrCommand? {
      CommandFields(m, a.word);
    }
  }

  lemma RemembersStep(m: Monitor, trace: seq<Access>, a: Access)
    requires Remembers(m, trace)
    ensures Remembers(m.Watch(a), trace + [a])
  {
    hide StateAfter, SetSince, LastSet, CoefficientSince, PulsesSince, Marked, Exists, Starts, Monitor.Watch;
    CommandsStep(m, trace, a);
    PulsesStep(m, trace, a);
    forall c | Exists(c)
      ensures Marked(m.Watch(a).tally.coeffs, c) <==> CoefficientSince(trace + [a], c)
    {
      CoefficientsStep(m, trace, a, c);
    }
  }

  lemma PreparedIsComplete(m: Monitor, trace: seq<Access>)
    requires Remembers(m, trace)
    ensures m.tally.Complete(m.width * m.height) <==> Prepared(trace)
  {
    hide StateAfter, SetSince, LastSet, CoefficientSince, PulsesSince, Marked, Exists;
    AllMarked(m.tally.coeffs);
  }

  lemma SafeStep(m: Monitor, trace: seq<Access>, a: Access)
    requires Remembers(m, trace)
    ensures m.Watch(a).safe <==> m.safe && SafeNext(trace, a)
  {
    hide Prepared, StateAfter, SetSince, LastSet, CoefficientSince, PulsesSince, Marked, Exists, PutCoeff;
    hide Tally.Complete;
    PreparedIsComplete(m, trace);
  }

  lemma SafeTraceNext(trace: seq<Access>)
    requires trace != []
    ensures SafeTrace(trace) <==>
      SafeTrace(trace[..|trace| - 1]) && SafeNext(trace[..|trace| - 1], trace[|trace| - 1])
  {
    hide SafeNext;
    var init := trace[..|trace| - 1];
    assert forall k :: 0 <= k < |init| ==> init[..k] == trace[..k] && init[k] == trace[k];
  }

  lemma RemembersStarts(m: Monitor, trace: seq<Access>)
    requires Remembers(m, trace)
    ensures m.starts == Starts(trace)
  {
  }

  lemma Beginning()
    ensures Remembers(POWER_UP, []) && SafeTrace([])
  {
    forall c | Exists(c)
      ensures !Marked(Same(false), c)
    {
      MarkedPut(Same(false), c, c);
    }
  }

  /** The monitor's verdict: it calls a sequence of accesses safe if and only if every access in it is, by the rules
      above, and counts the starts. */
  lemma {:induction false} MonitorExact(trace: seq<Access>)
    ensures Remembers(Observed(trace), trace)
    ensures Observed(trace).safe <==> SafeTrace(trace)
    ensures Observed(trace).starts == Starts(trace)
  {
    hide SafeNext, SafeTrace, Remembers, Monitor.Watch;
    if trace == [] {
      Beginning();
    } else {
      var init, a := trace[..|trace| - 1], trace[|trace| - 1];
      assert trace == init + [a];
      MonitorExact(init);
      RemembersStep(Observed(init), init, a);
      SafeStep(Observed(init), init, a);
      SafeTraceNext(trace);
    }
    RemembersStarts(Observed(trace), trace);
  }
}
