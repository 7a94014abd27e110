/** The memory-mapped registers behind the `mpu` pointers. Every access the firmware makes goes through these methods,
    so the monitor sees every access. */
module Devices {
  import opened Words
  import opened Grids
  import opened Hardware
  import opened Protocol

  class Device {
    const chip: Chip
    var hw: Hw
    ghost var monitor: Monitor

    /** Every access made since power-up. */
    ghost var trace: seq<Access>

    ghost predicate Valid()
      reads this
    {
      hw.Sized(chip) && monitor == Observed(trace)
    }

    /** The verdict of the monitor is about the accesses that were made. */
    lemma Verdict()
      requires Valid()
      ensures monitor.safe <==> SafeTrace(trace)
      ensures monitor.starts == Starts(trace)
    {
      MonitorExact(trace);
    }

    /** Power-up: the processor is in reset with its RAMs cleared. */
    constructor (chip: Chip, hidden: nat)
      ensures Valid() && this.chip == chip
      ensures Quiet(hw)
      ensures hw.phase == InReset && hw.hidden == hidden
      ensures monitor == POWER_UP && trace == []
    {
      this.chip := chip;
      var ram := Ram(0, 0, false, seq(chip.cells, k => 0));
      var none := Uniform(0);
      hw := Hw(InReset, 128, 128, 205, 2, Same(0), ram, ram, ram, Errors(none, none, 0), hidden);
      monitor, trace := POWER_UP, [];
    }

    method StoreCommand(word: u32)
      requires Valid()
      modifies this
      ensures Valid()
      ensures hw == old(hw).Commanded(chip, word)
      ensures monitor == old(monitor).Watch(WrCommand(word))
      ensures trace == old(trace) + [WrCommand(word)]
    {
      hw := hw.Commanded(chip, word);
      ObservedNext(trace, WrCommand(word));
      monitor, trace := monitor.Watch(WrCommand(word)), trace + [WrCommand(word)];
    }

    method StoreCoeff(reg: CoeffReg, v: s16)
      requires Valid()
      modifies this
      ensures Valid()
      ensures hw == old(hw).(coeffs := PutCoeff(old(hw).coeffs, reg, v))
      ensures monitor == old(monitor).CoeffWritten(reg)
      ensures trace == old(trace) + [WrCoeff(reg)]
    {
      hw := hw.(coeffs := PutCoeff(hw.coeffs, reg, v));
      ObservedNext(trace, WrCoeff(reg));
      monitor, trace := monitor.Watch(WrCoeff(reg)), trace + [WrCoeff(reg)];
    }

    method StoreCache(bank: Bank, pin: Pin, v: u16)
      requires Valid()
      modifies this
      ensures Valid()
      ensures hw == old(hw).CacheSet(bank, pin, v)
      ensures monitor == old(monitor).Watch(WrCache(bank, pin, v))
      ensures trace == old(trace) + [WrCache(bank, pin, v)]
    {
      hw := hw.CacheSet(bank, pin, v);
      ObservedNext(trace, WrCache(bank, pin, v));
      monitor, trace := monitor.Watch(WrCache(bank, pin, v)), trace + [WrCache(bank, pin, v)];
    }

    method LoadCache(bank: Bank) returns (v: u16)
      requires Valid()
      modifies this
      ensures Valid() && hw == old(hw)
      ensures v == hw.RamOf(bank).DataOut()
      ensures monitor == old(monitor).Watch(RdCache(bank))
      ensures trace == old(trace) + [RdCache(bank)]
    {
      v := hw.RamOf(bank).DataOut();
      ObservedNext(trace, RdCache(bank));
      monitor, trace := monitor.Watch(RdCache(bank)), trace + [RdCache(bank)];
    }

    method LoadError(reg: ErrorReg) returns (v: s32)
      requires Valid()
      modifies this
      ensures Valid() && hw == old(hw)
      ensures v == ErrorAt(hw.errors, reg)
      ensures monitor == old(monitor).Require(old(monitor).known.Ready?)
      ensures trace == old(trace) + [RdError]
    {
      v := ErrorAt(hw.errors, reg);
      ObservedNext(trace, RdError);
      monitor, trace := monitor.Watch(RdError), trace + [RdError];
    }

    /** The feedback register: bit 0 is ready, the upper half is a random number. The processor makes progress between
        two polls. */
    method LoadFeedback() returns (v: u32)
      requires Valid()
      modifies this
      ensures Valid()
      ensures hw == old(hw).Polled(chip)
      ensures v % 2 == if hw.phase.Done? then 1 else 0
      ensures monitor == old(monitor).Watch(RdFeedback(hw.phase.Done?))
      ensures trace == old(trace) + [RdFeedback(hw.phase.Done?)]
    {
      hw := hw.Polled(chip);
      v := if hw.phase.Done? then 1 else 0;
      ObservedNext(trace, RdFeedback(hw.phase.Done?));
      monitor, trace := monitor.Watch(RdFeedback(hw.phase.Done?)), trace + [RdFeedback(hw.phase.Done?)];
    }
  }
}
