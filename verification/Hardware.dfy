/** The CNN processor as the firmware sees it through its registers, and a monitor that watches the bus.
    What the processor computes is a parameter: any function of its hidden state and of the job it is given. */
module Hardware {
  import opened Words
  import opened Grids

  /** Everything the processor can see of a run: the first width * height cells of each RAM and the configuration. */
  datatype Job = Job(
    width: u16, height: u16, ts: u16, iterations: u16, coeffs: Template,
    u: seq<u16>, x: seq<u16>, ideal: seq<u16>)

  /** What a run leaves behind: the new x cells, the error registers and the hidden state. */
  datatype Outcome = Outcome(x: nat -> u16, errors: Errors<s32>, hidden: nat)

  /** A processor: the size of its RAMs, what a run computes, and after how many polls it reports ready. */
  datatype AnyChip = Chip(cells: nat, run: (nat, Job) -> Outcome, delay: (nat, Job) -> nat)

  /** Addresses are 16 bits wide on the firmware's side, so no more cells than that can be reached.
      The chip of this repository keeps 14 bits, 16384 cells. */
  type Chip = c: AnyChip | 0 < c.cells <= 0x1_0000
    witness Chip(0x4000, (h: nat, j) => Outcome(k => 0, Errors(Uniform(0), Uniform(0), 0), h), (h, j) => 0)

  datatype Bank = BankU | BankX | BankIdeal

  datatype Pin = Address | DataIn | WriteEnable

  /** One cache RAM with its three input registers. */
  datatype Ram = Ram(address: u16, dataIn: u16, writeEnable: bool, cells: seq<u16>) {
    /** While write enable is high the selected cell follows the data register. */
    function Clocked(): Ram {
      if writeEnable && |cells| > 0 then this.(cells := cells[address % |cells| := dataIn]) else this
    }

    function Set(pin: Pin, v: u16): Ram {
      match pin
      case Address => this.(address := v).Clocked()
      case DataIn => this.(dataIn := v).Clocked()
      case WriteEnable => this.(writeEnable := v % 2 == 1).Clocked()
    }

    function DataOut(): u16 {
      if |cells| > 0 then cells[address % |cells|] else 0
    }

    /** The part of the RAM a run of n pixels uses. */
    function Window(n: nat): seq<u16> {
      if n <= |cells| then cells[..n] else cells
    }

    /** The RAM after a run of n pixels wrote its result. */
    function Overwritten(n: nat, x: nat -> u16): Ram {
      this.(cells := seq(|cells|, k requires 0 <= k < |cells| => if k < n then x(k) else cells[k]))
    }
  }

  datatype CoeffReg = CoeffA(i: nat, j: nat) | CoeffB(i: nat, j: nat) | CoeffI | CoeffX | CoeffU

  datatype ErrorReg = ErrorU(i: nat, j: nat) | ErrorX(i: nat, j: nat) | ErrorI

  predicate InGrid(i: nat, j: nat) {
    i < 3 && j < 3
  }

  function PutCoeff<T>(c: Coeffs<T>, reg: CoeffReg, v: T): Coeffs<T> {
    match reg
    case CoeffA(i, j) => if InGrid(i, j) then c.(a := c.a.Put(i, j, v)) else c
    case CoeffB(i, j) => if InGrid(i, j) then c.(b := c.b.Put(i, j, v)) else c
    case CoeffI => c.(i := v)
    case CoeffX => c.(x := v)
    case CoeffU => c.(u := v)
  }

  function ErrorAt(e: Errors<s32>, reg: ErrorReg): s32 {
    match reg
    case ErrorU(i, j) => if InGrid(i, j) then e.u.At(i, j) else 0
    case ErrorX(i, j) => if InGrid(i, j) then e.x.At(i, j) else 0
    case ErrorI => e.i
  }

  /** The processor is held in reset, working on a job for `left` more polls, or finished. */
  datatype Phase = InReset | Running(left: nat, job: Job) | Done

  datatype Hw = Hw(
    phase: Phase,
    width: u16, height: u16, ts: u16, iterations: u16, coeffs: Template,
    u: Ram, x: Ram, ideal: Ram,
    errors: Errors<s32>, hidden: nat)
  {
    predicate Sized(chip: Chip) {
      |u.cells| == |x.cells| == |ideal.cells| == chip.cells
    }

    function RamOf(bank: Bank): Ram {
      match bank
      case BankU => u
      case BankX => x
      case BankIdeal => ideal
    }

    function CurrentJob(): Job {
      var n := width * height;
      Job.Job(width, height, ts, iterations, coeffs, u.Window(n), x.Window(n), ideal.Window(n))
    }

    /** The command register: address in the upper half-word, data in the lower. */
    function Commanded(chip: Chip, word: u32): Hw {
      var data := word % 0x1_0000;
      match word / 0x1_0000
      case 1 => this.(width := data)
      case 2 => this.(height := data)
      case 3 => this.(ts := data)
      case 4 => this.(iterations := data)
      case 6 =>
        if data % 2 == 1 then this.(phase := InReset)
        else if phase.InReset? then this.(phase := Running(chip.delay(hidden, CurrentJob()), CurrentJob()))
        else this
      case _ => this
    }

    function CacheSet(bank: Bank, pin: Pin, v: u16): Hw {
      match bank
      case BankU => this.(u := u.Set(pin, v))
      case BankX => this.(x := x.Set(pin, v))
      case BankIdeal => this.(ideal := ideal.Set(pin, v))
    }

    /** The run ends: its result becomes visible. */
    function Finished(chip: Chip): Hw
      requires phase.Running?
    {
      var job := phase.job;
      var out := chip.run(hidden, job);
      this.(phase := Done, x := x.Overwritten(job.width * job.height, out.x),
            errors := out.errors, hidden := out.hidden)
    }

    /** One poll of the feedback register. */
    function Polled(chip: Chip): Hw {
      if !phase.Running? then this
      else if phase.left == 0 then Finished(chip)
      else this.(phase := phase.(left := phase.left - 1))
    }

    function PolledTimes(chip: Chip, n: nat): Hw {
      if n == 0 then this else PolledTimes(chip, n - 1).Polled(chip)
    }
  }

  /** The stores that command_write makes, with the command numbers of the firmware: 1 and 2 set the size, 3 the time
      step, 4 the number of iterations, 6 reset; releasing a reset starts the run of everything written so far. */
  lemma CommandsDecoded(chip: Chip, hw: Hw, data: u16)
    ensures hw.Commanded(chip, 0x1_0000 + data) == hw.(width := data)
    ensures hw.Commanded(chip, 0x2_0000 + data) == hw.(height := data)
    ensures hw.Commanded(chip, 0x3_0000 + data) == hw.(ts := data)
    ensures hw.Commanded(chip, 0x4_0000 + data) == hw.(iterations := data)
    ensures hw.Commanded(chip, 0x6_0001) == hw.(phase := InReset)
    ensures hw.phase.InReset? ==>
      hw.Commanded(chip, 0x6_0000) == hw.(phase := Running(chip.delay(hw.hidden, hw.CurrentJob()), hw.CurrentJob()))
    ensures !hw.phase.InReset? ==> hw.Commanded(chip, 0x6_0000) == hw
  {
  }

  /** Polling finds the processor ready exactly after more polls than it needs, and however often it is polled: before
      that nothing else has changed; from then on the error registers and the first width * height cells of the x RAM
      are those of the run, and the other cells are untouched. */
  lemma {:induction false} ReadyExactlyAfterDelay(chip: Chip, hw: Hw, n: nat)
    requires hw.phase.Running?
    ensures var r, job := hw.PolledTimes(chip, n), hw.phase.job;
      var out := chip.run(hw.hidden, job);
      && (r.phase.Done? <==> n > hw.phase.left)
      && (!r.phase.Done? ==> r == hw.(phase := Running(hw.phase.left - n, job)))
      && (r.phase.Done? ==>
            && r == hw.(phase := Done, x := r.x, errors := out.errors, hidden := out.hidden)
            && r.x == hw.x.(cells := r.x.cells) && |r.x.cells| == |hw.x.cells|
            && forall k :: 0 <= k < |r.x.cells| ==>
                 r.x.cells[k] == if k < job.width * job.height then out.x(k) else hw.x.cells[k])
  {
    if n > 0 {
      ReadyExactlyAfterDelay(chip, hw, n - 1);
    }
  }

  /** No RAM is being written between two accesses. */
  predicate Quiet(hw: Hw) {
    !hw.u.writeEnable && !hw.x.writeEnable && !hw.ideal.writeEnable
  }

  // ------------------------------------------------------------------------------------------------------------------
  // The bus monitor
  // ------------------------------------------------------------------------------------------------------------------

  datatype Access =
    | WrCommand(word: u32)
    | WrCoeff(coeff: CoeffReg)
    | WrCache(bank: Bank, pin: Pin, data: u16)
    | RdFeedback(ready: bool)
    | RdCache(bank: Bank)
    | RdError

  /** What has been written since reset was last released: the four configuration registers, the coefficient registers,
      and the number of write-enable pulses of each RAM. */
  datatype Tally = Tally(
    width: bool, height: bool, ts: bool, iterations: bool, coeffs: Coeffs<bool>, u: nat, x: nat, ideal: nat)
  {
    predicate Complete(n: nat) {
      width && height && ts && iterations && coeffs == Same(true) && u == x == ideal == n
    }
  }

  const NOTHING: Tally := Tally(false, false, false, false, Same(false), 0, 0, 0)

  datatype Known = Held | Busy | Ready

  /** A monitor that sees only bus accesses. `safe` is lost for good by a store to the processor while it is busy, by
      reading a result before ready was seen, and by releasing reset before everything the run needs was written since
      the previous release. `starts` counts the releases. */
  datatype Monitor = Monitor(known: Known, safe: bool, starts: nat, width: u16, height: u16, tally: Tally) {
    function Require(b: bool): Monitor {
      this.(safe := safe && b)
    }

    static function Pulsed(t: Tally, bank: Bank): Tally {
      match bank
      case BankU => t.(u := t.u + 1)
      case BankX => t.(x := t.x + 1)
      case BankIdeal => t.(ideal := t.ideal + 1)
    }

    function CoeffWritten(c: CoeffReg): Monitor {
      this.(safe := safe && !known.Busy?, tally := tally.(coeffs := PutCoeff(tally.coeffs, c, true)))
    }

    function Commanded(address: nat, data: u16): Monitor {
      var m := Require(!known.Busy?);
      match address
      case 1 => m.(width := data, tally := tally.(width := true))
      case 2 => m.(height := data, tally := tally.(height := true))
      case 3 => m.(tally := tally.(ts := true))
      case 4 => m.(tally := tally.(iterations := true))
      case 6 =>
        if data % 2 == 1 then m.(known := Held)
        else if known.Held? then
          Require(tally.Complete(width * height)).(known := Busy, starts := starts + 1, tally := NOTHING)
        else m
      case _ => m
    }

    function Watch(access: Access): Monitor {
      match access
      case WrCommand(word) => Commanded(word / 0x1_0000, word % 0x1_0000)
      case WrCoeff(c) => CoeffWritten(c)
      case WrCache(bank, pin, data) =>
        var m := Require(!known.Busy?);
        if pin.WriteEnable? && data % 2 == 1 then m.(tally := Pulsed(tally, bank)) else m
      case RdFeedback(ready) => if ready && known.Busy? then this.(known := Ready) else this
      case RdCache(_) => Require(known.Ready?)
      case RdError => Require(known.Ready?)
    }
  }
}
