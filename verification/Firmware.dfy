/** The firmware: the C globals of sys_init.c and the functions of sys_func.c, cnn_func.c and cnn_algorithm.c. */
module Firmwares {
  import opened Words
  import opened Grids
  import opened Pictures
  import opened Hardware
  import opened Protocol
  import opened Devices
  import opened Semantics
  import opened ImageStores
  import opened Bits
  import opened Sections
  import opened Scaling

  /** general_struct: the loop counters every function shares. */
  class General {
    var i: u32
    var j: u32
    var k: u32

    constructor () {
      i, j, k := 0, 0, 0;
    }
  }

  /** cnn_struct */
  class Cnn {
    var ts: u16
    var iterCnt: u16
    var templateNo: u16
    var learnLoop: u16
    var learnRate: u16

    constructor () {
      ts, iterCnt, templateNo, learnLoop, learnRate := 0, 0, 0, 0, 0;
    }

    ghost function Value(): Config
      reads this
    {
      Config(ts, iterCnt, templateNo, learnLoop, learnRate)
    }
  }

  /** mpu.template_var, through which every coefficient update passes. */
  class Scratch {
    var templateVar: s32

    constructor () {
      templateVar := 0;
    }
  }

  /** error_struct */
  class ErrorRecord {
    var u: Grid<s16>
    var x: Grid<s16>
    var i: s16

    constructor () {
      u, x, i := Uniform(0), Uniform(0), 0;
    }

    ghost function Value(): Errors<s16>
      reads this
    {
      Errors(u, x, i)
    }
  }

  /** The UART: what went out, and what came in and was not read yet. */
  class Uart {
    var sent: seq<u8>
    var inbox: seq<u8>

    constructor ()
      ensures sent == [] && inbox == []
    {
      sent := [];
      inbox := [];
    }
  }

  const BUS_MAX: int := 32767
  const BUS_MIN: int := -32768
  const ERROR_MAX: int := 0x7fff_ffff
  const ERROR_MIN: int := -0x8000_0000

  /** The three branches of template_pixel_create. */
  function Saturated(val: int): s32 {
    if val > BUS_MAX then BUS_MAX else if val < BUS_MIN then BUS_MIN else val
  }

  /** The three branches of template_pixel_update. */
  function Limited(sum: int): s32 {
    if sum > ERROR_MAX then ERROR_MAX else if sum < ERROR_MIN then ERROR_MIN else S16(sum)
  }

  lemma LimitedIdle(sum: s32)
    ensures Limited(sum) == S16(sum)
  {
  }

  const PATCH_BOT: nat := 0
  const PATCH_TOP: nat := 2

  const L2CACHE_WIDTH_MAX: u16 := 128
  const L2CACHE_HEIGHT_MAX: u16 := 128

  const CMD_CACHE_WIDTH: u16 := 1
  const CMD_CACHE_HEIGHT: u16 := 2
  const CMD_TS: u16 := 3
  const CMD_ITER_CNT: u16 := 4
  const CMD_STATE_RST: u16 := 6

  /** Pixel (i, j) of slot s, without the rest of the store. */
  ghost predicate PixelIs(store: ImageStore, s: nat, i: nat, j: nat, v: u16)
    reads store, store.image, store.slots, store.rows
  {
    && s < store.image.Length
    && store.image[s] in store.slots && i < store.image[s].Length
    && store.image[s][i] in store.rows && j < store.image[s][i].Length && store.image[s][i][j] == v
  }

  class Firmware {
    const general: General
    const store: ImageStore
    const cnn: Cnn
    const device: Device
    const mpu: Scratch
    const templates: array<Template>
    const errors: ErrorRecord
    const uart: Uart

    /** The statically initialised globals, wired to a device in its power-up state. */
    constructor (chip: Chip, hidden: nat, initial: seq<Template>)
      requires |initial| == TEMPLATES
      ensures device.chip == chip && device.Valid() && Quiet(device.hw) && device.hw.hidden == hidden
      ensures device.monitor == Monitor(Held, true, 0, 0, 0, NOTHING)
      ensures templates[..] == initial && uart.sent == [] && uart.inbox == []
      ensures fresh(general) && fresh(store) && fresh(cnn) && fresh(device) && fresh(mpu) && fresh(templates)
      ensures fresh(errors) && fresh(uart)
    {
      general := new General();
      store := new ImageStore();
      cnn := new Cnn();
      device := new Device(chip, hidden);
      mpu := new Scratch();
      templates := new Template[TEMPLATES](k requires 0 <= k < TEMPLATES => initial[k]);
      errors := new ErrorRecord();
      uart := new Uart();
    }

    ghost predicate Valid()
      reads device, store, store.image, store.slots, store.rows
    {
      && store.Valid()
      && templates.Length == TEMPLATES
      && device.Valid()
      && Quiet(device.hw)
    }

    ghost function Value(): (w: World)
      requires Valid()
      reads device, store, store.image, store.slots, store.rows, cnn, templates, errors, uart
      ensures w.Valid(device.chip)
    {
      World(store.width, store.height, store.pictures, templates[..], errors.Value(), cnn.Value(),
            device.hw, device.monitor, uart.sent, uart.inbox)
    }

    // ----------------------------------------------------------------------------------------------------------------
    // sys_func.c
    // ----------------------------------------------------------------------------------------------------------------

    method UartWrite(data: u8)
      requires Valid()
      modifies uart
      ensures Valid() && Value() == Send(old(Value()), data)
    {
      uart.sent := uart.sent + [data];
    }

    /** uart_read waits until a byte has arrived; a caller needs one to be in the inbox, or to come. */
    method UartRead() returns (data: u8)
      requires Valid() && |uart.inbox| > 0
      modifies uart
      ensures Valid() && data == old(uart.inbox[0])
      ensures uart.sent == old(uart.sent) && uart.inbox == old(uart.inbox)[1..]
    {
      data := uart.inbox[0];
      uart.inbox := uart.inbox[1..];
    }

    method CommandWrite(address: u16, data: u16)
      requires device.Valid()
      modifies device
      ensures device.Valid()
      ensures device.hw == old(device.hw).Commanded(device.chip, address * 0x1_0000 + data)
      ensures device.monitor == old(device.monitor).Commanded(address, data)
    {
      OrHalfWord(address, data);
      device.StoreCommand(BitOr(0x1_0000 * address, data));
    }

    method L2CacheUWrite(address: u16, data: u16)
      requires device.Valid()
      modifies device
      ensures device.Valid()
      ensures device.hw == old(device.hw).(u := Written(old(device.hw).u, address, data))
      ensures !old(device.hw).u.writeEnable ==>
        device.hw.u.cells == old(device.hw).u.cells[address % |old(device.hw).u.cells| := data]
      ensures device.monitor == old(device.monitor).(
        safe := old(device.monitor).safe && !old(device.monitor).known.Busy?,
        tally := Monitor.Pulsed(old(device.monitor).tally, BankU))
    {
      if !device.hw.u.writeEnable {
        WrittenCell(device.hw.u, address, data);
      }
      device.StoreCache(BankU, Address, address);
      device.StoreCache(BankU, DataIn, data);
      device.StoreCache(BankU, WriteEnable, 1);
      device.StoreCache(BankU, WriteEnable, 0);
    }

    method L2CacheXWrite(address: u16, data: u16)
      requires device.Valid()
      modifies device
      ensures device.Valid()
      ensures device.hw == old(device.hw).(x := Written(old(device.hw).x, address, data))
      ensures !old(device.hw).x.writeEnable ==>
        device.hw.x.cells == old(device.hw).x.cells[address % |old(device.hw).x.cells| := data]
      ensures device.monitor == old(device.monitor).(
        safe := old(device.monitor).safe && !old(device.monitor).known.Busy?,
        tally := Monitor.Pulsed(old(device.monitor).tally, BankX))
    {
      if !device.hw.x.writeEnable {
        WrittenCell(device.hw.x, address, data);
      }
      device.StoreCache(BankX, Address, address);
      device.StoreCache(BankX, DataIn, data);
      device.StoreCache(BankX, WriteEnable, 1);
      device.StoreCache(BankX, WriteEnable, 0);
    }

    method L2CacheIdealWrite(address: u16, data: u16)
      requires device.Valid()
      modifies device
      ensures device.Valid()
      ensures device.hw == old(device.hw).(ideal := Written(old(device.hw).ideal, address, data))
      ensures !old(device.hw).ideal.writeEnable ==>
        device.hw.ideal.cells == old(device.hw).ideal.cells[address % |old(device.hw).ideal.cells| := data]
      ensures device.monitor == old(device.monitor).(
        safe := old(device.monitor).safe && !old(device.monitor).known.Busy?,
        tally := Monitor.Pulsed(old(device.monitor).tally, BankIdeal))
    {
      if !device.hw.ideal.writeEnable {
        WrittenCell(device.hw.ideal, address, data);
      }
      device.StoreCache(BankIdeal, Address, address);
      device.StoreCache(BankIdeal, DataIn, data);
      device.StoreCache(BankIdeal, WriteEnable, 1);
      device.StoreCache(BankIdeal, WriteEnable, 0);
    }

    method L2CacheXRead(address: u16) returns (value: u16)
      requires device.Valid()
      modifies device
      ensures device.Valid()
      ensures device.hw == old(device.hw).(x := old(device.hw).x.Set(Address, address))
      ensures value == device.hw.x.DataOut()
      ensures device.monitor == old(device.monitor).Require(old(device.monitor).known.Ready?)
    {
      device.StoreCache(BankX, Address, address);
      value := device.LoadCache(BankX);
    }

    method ReadyRead() returns (ready: u8)
      requires device.Valid()
      modifies device
      ensures device.Valid()
      ensures device.hw == old(device.hw).Polled(device.chip)
      ensures ready == if device.hw.phase.Done? then 1 else 0
      ensures device.monitor == old(device.monitor).Watch(RdFeedback(device.hw.phase.Done?))
    {
      var feedback := device.LoadFeedback();
      ready := feedback % 2;
    }

    /** `*mpu.template_.. = v` */
    method SetCoefficient(reg: CoeffReg, v: s16)
      requires device.Valid()
      modifies device
      ensures device.Valid()
      ensures device.hw == old(device.hw).(coeffs := PutCoeff(old(device.hw).coeffs, reg, v))
      ensures device.monitor == old(device.monitor).CoeffWritten(reg)
    {
      device.StoreCoeff(reg, v);
    }

    /** template_set: the 21 coefficient registers take the values of one template. */
    method TemplateSet(templateNo: u16)
      requires device.Valid() && templateNo < templates.Length
      modifies device
      ensures device.Valid()
      ensures device.hw == old(device.hw).(coeffs := templates[templateNo])
      ensures device.monitor == CoeffsSeen(old(device.monitor))
    {
      hide Observed;
      var t := templates[templateNo];
      SetCoefficient(CoeffA(0, 0), t.a.At(0, 0)); SetCoefficient(CoeffA(0, 1), t.a.At(0, 1));
      SetCoefficient(CoeffA(0, 2), t.a.At(0, 2)); SetCoefficient(CoeffA(1, 0), t.a.At(1, 0));
      SetCoefficient(CoeffA(1, 1), t.a.At(1, 1)); SetCoefficient(CoeffA(1, 2), t.a.At(1, 2));
      SetCoefficient(CoeffA(2, 0), t.a.At(2, 0)); SetCoefficient(CoeffA(2, 1), t.a.At(2, 1));
      SetCoefficient(CoeffA(2, 2), t.a.At(2, 2)); SetCoefficient(CoeffB(0, 0), t.b.At(0, 0));

      SetCoefficient(CoeffB(0, 1), t.b.At(0, 1)); SetCoefficient(CoeffB(0, 2), t.b.At(0, 2));
      SetCoefficient(CoeffB(1, 0), t.b.At(1, 0)); SetCoefficient(CoeffB(1, 1), t.b.At(1, 1));
      SetCoefficient(CoeffB(1, 2), t.b.At(1, 2)); SetCoefficient(CoeffB(2, 0), t.b.At(2, 0));
      SetCoefficient(CoeffB(2, 1), t.b.At(2, 1)); SetCoefficient(CoeffB(2, 2), t.b.At(2, 2));

      SetCoefficient(CoeffI, t.i);

      SetCoefficient(CoeffX, t.x);
      SetCoefficient(CoeffU, t.u);
    }

    // ----------------------------------------------------------------------------------------------------------------
    // cnn_func.c
    // ----------------------------------------------------------------------------------------------------------------

    // cnn_driver is one C function; its four sections are four methods here, called in the order of the source.

    /** cnn_func.c:13-18: configuration registers, then the template. */
    method ConfigureRun(templateNo: u16, iterCnt: u16, ts: u16)
      requires Valid() && templateNo < TEMPLATES
      modifies device
      ensures device.Valid()
      ensures device.hw == Configured(old(device.hw), store.width, store.height, ts, iterCnt, templates[templateNo])
      ensures device.monitor == CoeffsSeen(ConfigSeen(old(device.monitor), store.width, store.height))
    {
      CommandWrite(CMD_CACHE_WIDTH, store.width);
      CommandWrite(CMD_CACHE_HEIGHT, store.height);
      CommandWrite(CMD_TS, ts);
      CommandWrite(CMD_ITER_CNT, iterCnt);

      TemplateSet(templateNo);
    }

    /** The body of the loading loop: pixel (i, j) of the three images is number n in row-major order. */
    method LoadPixel(uLoc: u8, xLoc: u8, idealLoc: u8, ghost n: nat,
                     ghost start: Hw, ghost u: seq<u16>, ghost x: seq<u16>, ghost ideal: seq<u16>)
      requires device.Valid()
      requires n < |u| && n < |x| && n < |ideal|
      requires general.j + general.i * store.width == n
      requires PixelIs(store, uLoc, general.i, general.j, u[n])
      requires PixelIs(store, xLoc, general.i, general.j, x[n])
      requires PixelIs(store, idealLoc, general.i, general.j, ideal[n])
      requires device.hw == Loaded(start, u, x, ideal, n)
      modifies device
      ensures device.Valid()
      ensures device.hw == Loaded(start, u, x, ideal, n + 1)
      ensures device.monitor == PulsesSeen(old(device.monitor), 1)
    {
      hide Observed;
      L2CacheUWrite(U16(general.j + general.i * store.width), store.image[uLoc][general.i][general.j]);
      L2CacheXWrite(U16(general.j + general.i * store.width), store.image[xLoc][general.i][general.j]);
      L2CacheIdealWrite(U16(general.j + general.i * store.width), store.image[idealLoc][general.i][general.j]);
      LoadedNext(start, u, x, ideal, n);
    }

    /** The inner loop: row i of the three images. */
    method LoadRow(uLoc: u8, xLoc: u8, idealLoc: u8, ghost n: nat,
                   ghost start: Hw, ghost u: seq<u16>, ghost x: seq<u16>, ghost ideal: seq<u16>)
      requires device.Valid()
      requires general.i * store.width == n
      requires n + store.width <= |u| && n + store.width <= |x| && n + store.width <= |ideal|
      requires store.RowIs(uLoc, general.i, u[n..n + store.width])
      requires store.RowIs(xLoc, general.i, x[n..n + store.width])
      requires store.RowIs(idealLoc, general.i, ideal[n..n + store.width])
      requires device.hw == Loaded(start, u, x, ideal, n)
      modifies general`j, device
      ensures device.Valid()
      ensures device.hw == Loaded(start, u, x, ideal, n + store.width)
      ensures device.monitor == PulsesSeen(old(device.monitor), store.width)
    {
      hide Filled, Written, Observed;
      ghost var m := device.monitor;
      general.j := 0;
      while general.j < store.width
        invariant general.j <= store.width
        invariant device.Valid()
        invariant device.hw == Loaded(start, u, x, ideal, n + general.j)
        invariant device.monitor == PulsesSeen(m, general.j)
      {
        LoadPixel(uLoc, xLoc, idealLoc, n + general.j, start, u, x, ideal);
        PulsesAdd(m, general.j, 1);
        general.j := general.j + 1;
      }
    }

    /** cnn_func.c:20-28: the three images go to the device pixel by pixel. */
    method LoadCaches(uLoc: u8, xLoc: u8, idealLoc: u8)
      requires Valid() && uLoc < SLOTS && xLoc < SLOTS && idealLoc < SLOTS
      modifies general`i, general`j, device
      ensures device.Valid()
      ensures PicturesLoaded(store.pictures, store.width, store.height, uLoc, xLoc, idealLoc, old(device.hw), device.hw)
      ensures device.monitor == PulsesSeen(old(device.monitor), store.width * store.height)
    {
      hide Filled, Written, Observed;
      ghost var hw, m := device.hw, device.monitor;
      ghost var w: nat, h: nat := store.width, store.height;
      ghost var u, x := Flatten(store.pictures[uLoc]), Flatten(store.pictures[xLoc]);
      ghost var ideal := Flatten(store.pictures[idealLoc]);
      FlattenLength(store.pictures[uLoc], w, h);
      FlattenLength(store.pictures[xLoc], w, h);
      FlattenLength(store.pictures[idealLoc], w, h);
      LoadedNone(hw, u, x, ideal);
      ghost var n: nat := 0;
      general.i := 0;
      while general.i < store.height
        invariant general.i <= h && n == general.i * w <= w * h
        invariant device.Valid()
        invariant device.hw == Loaded(hw, u, x, ideal, n)
        invariant device.monitor == PulsesSeen(m, n)
      {
        FlattenRow(store.pictures[uLoc], w, h, general.i);
        FlattenRow(store.pictures[xLoc], w, h, general.i);
        FlattenRow(store.pictures[idealLoc], w, h, general.i);
        LoadRow(uLoc, xLoc, idealLoc, n, hw, u, x, ideal);
        PulsesAdd(m, n, w);
        Distribute(general.i, w);
        n := n + w;
        general.i := general.i + 1;
      }
      Commute(h, w);
    }

    /** cnn_func.c:30-32: pulse reset, then poll until the processor reports ready. */
    method StartAndWait()
      requires device.Valid()
      modifies device
      ensures device.Valid()
      ensures device.hw == Completed(device.chip, old(device.hw))
      ensures device.monitor == RunSeen(old(device.monitor))
    {
      CommandWrite(CMD_STATE_RST, 1);
      CommandWrite(CMD_STATE_RST, 0);
      ghost var start := device.hw;
      ghost var m := device.monitor;
      var ready := ReadyRead();
      while ready == 0
        invariant device.Valid()
        invariant ready == 0 ==>
          device.hw.phase.Running? && device.hw == start.(phase := start.phase.(left := device.hw.phase.left))
        invariant ready == 0 ==> device.monitor == m
        invariant ready != 0 ==>
          device.hw == Completed(device.chip, old(device.hw)) && device.monitor == m.(known := Ready)
        decreases if ready == 0 then 1 + device.hw.phase.left else 0
      {
        ready := ReadyRead();
      }
    }

    /** The body of the unloading loop: pixel (i, j) of the result, number n in row-major order. */
    method UnloadPixel(xLoc: u8, ghost n: nat, ghost hw: Hw)
      requires Valid() && xLoc < SLOTS && general.i < store.height && general.j < store.width
      requires n == general.i * store.width + general.j
      requires hw.Sized(device.chip) && Quiet(hw) && device.hw == hw.(x := Scanned(hw.x, n))
      requires device.monitor.known.Ready?
      modifies device, store`pictures, store.rows
      ensures Valid()
      ensures device.hw == hw.(x := Scanned(hw.x, n + 1)) && device.monitor == old(device.monitor)
      ensures store.pictures == WithPixel(old(store.pictures), xLoc, general.i, general.j,
                                          UnloadedRow(hw.x.cells, general.i, store.width)[general.j])
    {
      hide Observed;
      var v := L2CacheXRead(U16(general.j + general.i * store.width));
      PixelAddress(hw.x, general.i, general.j, store.width);
      store.Put(xLoc, general.i, general.j, v);
    }

    /** The inner loop: row i of the result. */
    method UnloadRow(xLoc: u8, ghost n: nat, ghost hw: Hw)
      requires Valid() && xLoc < SLOTS && general.i < store.height && n == general.i * store.width
      requires hw.Sized(device.chip) && Quiet(hw) && device.hw == hw.(x := Scanned(hw.x, n))
      requires device.monitor.known.Ready?
      modifies general`j, device, store`pictures, store.rows
      ensures Valid()
      ensures device.hw == hw.(x := Scanned(hw.x, n + store.width)) && device.monitor == old(device.monitor)
      ensures store.pictures ==
        WithRow(old(store.pictures), xLoc, general.i, UnloadedRow(hw.x.cells, general.i, store.width))
    {
      hide WithRow, WithPixel, WithPixels, Observed;
      ghost var i, pics, row := general.i, store.pictures, UnloadedRow(hw.x.cells, general.i, store.width);
      WithPixelsEnds(pics, xLoc, i, row);
      general.j := 0;
      while general.j < store.width
        invariant general.j <= store.width
        invariant Valid()
        invariant device.hw == hw.(x := Scanned(hw.x, n + general.j)) && device.monitor == old(device.monitor)
        invariant store.pictures == WithPixels(pics, xLoc, i, row, general.j)
      {
        UnloadPixel(xLoc, n + general.j, hw);
        WithPixelsSteps(pics, xLoc, i, row, general.j);
        general.j := general.j + 1;
      }
    }

    /** cnn_func.c:34-40: the result goes to slot xLoc. */
    method UnloadResult(xLoc: u8)
      requires Valid() && xLoc < SLOTS && device.monitor.known.Ready?
      modifies general`i, general`j, device, store`pictures, store.rows
      ensures Valid()
      ensures device.hw == old(device.hw).(x := Scanned(old(device.hw).x, store.width * store.height))
      ensures device.monitor == old(device.monitor)
      ensures store.pictures == old(store.pictures)[xLoc := Unloaded(old(device.hw).x.cells, store.width, store.height)]
    {
      hide Unloaded, UnloadedRow, WithRow, WithRows, Observed;
      ghost var hw, pics, w: nat, h: nat := device.hw, store.pictures, store.width, store.height;
      ghost var result := Unloaded(hw.x.cells, w, h);
      ghost var n: nat := 0;
      WithRowsEnds(pics, xLoc, result);
      general.i := 0;
      while general.i < store.height
        invariant general.i <= store.height && n == general.i * w
        invariant Valid()
        invariant device.hw == hw.(x := Scanned(hw.x, n)) && device.monitor == old(device.monitor)
        invariant store.pictures == WithRows(pics, xLoc, result, general.i)
      {
        UnloadedAt(hw.x.cells, w, h, general.i);
        UnloadRow(xLoc, n, hw);
        WithRowsSteps(pics, xLoc, result, general.i);
        Distribute(general.i, w);
        n := n + w;
        general.i := general.i + 1;
      }
      Commute(h, w);
    }

    method CnnDriver(uLoc: u8, xLoc: u8, idealLoc: u8, templateNo: u16, iterCnt: u16, ts: u16)
      requires Valid() && uLoc < SLOTS && xLoc < SLOTS && idealLoc < SLOTS && templateNo < TEMPLATES
      modifies general`i, general`j, device, store`pictures, store.rows
      ensures Valid()
      ensures Value() == Drive(device.chip, old(Value()), uLoc, xLoc, idealLoc, templateNo, iterCnt, ts)
    {
      hide Drive, Loaded, Completed, Unloaded, Scanned, DriverSeen, Observed;
      ghost var w, chip := Value(), device.chip;
      ConfigureRun(templateNo, iterCnt, ts);
      ghost var hw1 := device.hw;
      LoadCaches(uLoc, xLoc, idealLoc);
      ghost var hw2 := device.hw;
      StartAndWait();
      DriveSections(chip, w, uLoc, xLoc, idealLoc, templateNo, iterCnt, ts, hw1, hw2);
      UnloadResult(xLoc);
      MonitorSections(w.monitor, w.width, w.height);
    }

    /** The last switch of template_pixel_create and template_pixel_update: template_var goes to one coefficient. */
    method StoreTemplateVar(templateNo: u16, loc: char, i: u32, j: u32)
      requires templateNo < templates.Length && (loc == 'A' || loc == 'B' ==> i < 3 && j < 3)
      modifies templates
      ensures templates[..] ==
        old(templates[..])[templateNo := WithCoeff(old(templates[templateNo]), loc, i, j, S16(mpu.templateVar))]
    {
      hide S16, Grid.Put;
      var t := templates[templateNo];
      match loc {
        case 'A' => templates[templateNo] := t.(a := t.a.Put(i, j, S16(mpu.templateVar)));
        case 'B' => templates[templateNo] := t.(b := t.b.Put(i, j, S16(mpu.templateVar)));
        case 'I' => templates[templateNo] := t.(i := S16(mpu.templateVar));
        case 'x' => templates[templateNo] := t.(x := S16(mpu.templateVar));
        case 'u' => templates[templateNo] := t.(u := S16(mpu.templateVar));
        case _ => return;
      }
    }

    method TemplatePixelCreate(templateNo: u16, loc: char, i: u32, j: u32, val: s16)
      requires templateNo < templates.Length && (loc == 'A' || loc == 'B' ==> i < 3 && j < 3)
      modifies mpu, templates
      ensures templates[..] == old(templates[..])[templateNo := WithCoeff(old(templates[templateNo]), loc, i, j, val)]
    {
      hide S16, WithCoeff;
      S16OfNarrow(val);
      mpu.templateVar := Saturated(val);

      StoreTemplateVar(templateNo, loc, i, j);
    }

    /** The loops of template_create. */
    method ClearPatches(templateNo: u16)
      requires templateNo < templates.Length
      modifies general`i, general`j, mpu, templates
      ensures templates[..] ==
        old(templates[..])[templateNo := old(templates[templateNo]).(a := Uniform(0), b := Uniform(0))]
    {
      hide ZeroUpTo, Grid.Put;
      ghost var ts := templates[..];
      ghost var t := ts[templateNo];
      ZeroEnds(t.a);
      ZeroEnds(t.b);
      general.i := PATCH_BOT;
      while general.i <= 2
        decreases 3 - general.i
        invariant general.i <= 3
        invariant templates[..] == ts[templateNo := t.(a := ZeroUpTo(t.a, 3 * general.i),
                                                       b := ZeroUpTo(t.b, 3 * general.i))]
      {
        ghost var i := general.i;
        general.j := PATCH_BOT;
        while general.j <= 2
          decreases 3 - general.j
          invariant general.i == i < 3 && general.j <= 3
          invariant templates[..] == ts[templateNo := t.(a := ZeroUpTo(t.a, 3 * general.i + general.j),
                                                         b := ZeroUpTo(t.b, 3 * general.i + general.j))]
        {
          ZeroNext(t.a, general.i, general.j);
          ZeroNext(t.b, general.i, general.j);
          TemplatePixelCreate(templateNo, 'A', general.i, general.j, 0);
          TemplatePixelCreate(templateNo, 'B', general.i, general.j, 0);
          general.j := general.j + 1;
        }
        general.i := general.i + 1;
      }
    }

    method TemplateCreate(templateNo: u16)
      requires Valid() && templateNo < TEMPLATES
      modifies general`i, general`j, mpu, templates
      ensures Valid() && Value() == TemplateCreated(old(Value()), templateNo)
    {
      hide ImageStore.Valid, World.Valid, Uniform;
      ClearPatches(templateNo);
      TemplatePixelCreate(templateNo, 'I', 0, 0, 0);
      TemplatePixelCreate(templateNo, 'x', 0, 0, 0);
      TemplatePixelCreate(templateNo, 'u', 0, 0, 0);
    }

    /** The sum is computed in 32 bits, so it can never exceed the 32-bit limits it is compared with; what is stored is
        the exact sum reduced to 16 bits. */
    method TemplatePixelUpdate(templateNo: u16, loc: char, i: u32, j: u32, error: s32)
      requires templateNo < templates.Length && (loc == 'A' || loc == 'B' ==> i < 3 && j < 3)
      modifies mpu, templates
      ensures templates[..] ==
        if IsLocation(loc) then
          old(templates[..])[templateNo := WithCoeff(old(templates[templateNo]), loc, i, j,
                                                     S16(CoeffAt(old(templates[templateNo]), loc, i, j) + error))]
        else old(templates[..])
    {
      hide S16, S32, U16, Grid.At, WithCoeff;
      var t := templates[templateNo];
      match loc {
        case 'A' => mpu.templateVar := t.a.At(i, j);
        case 'B' => mpu.templateVar := t.b.At(i, j);
        case 'I' => mpu.templateVar := t.i;
        case 'x' => mpu.templateVar := t.x;
        case 'u' => mpu.templateVar := t.u;
        case _ => return;
      }
      SumStored(mpu.templateVar, error);

      var templateSum := S32(S16(U16(mpu.templateVar)) + error);
      LimitedIdle(templateSum);
      mpu.templateVar := Limited(templateSum);

      StoreTemplateVar(templateNo, loc, i, j);
    }

    /** The loops of template_update_1d. */
    method UpdatePatches1d(templateNo: u16)
      requires templateNo < templates.Length
      modifies general`i, general`j, mpu, templates
      ensures var t := old(templates[templateNo]);
        templates[..] == old(templates[..])[templateNo := t.(a := AddRow1(t.a, errors.x), b := AddRow1(t.b, errors.u))]
    {
      hide AddRow1UpTo, AddRow1, Grid.At, Grid.Put, S16;
      ghost var ts := templates[..];
      ghost var t := ts[templateNo];
      Row1Starts(errors.x, errors.u, t);
      general.i := PATCH_BOT;
      while general.i <= PATCH_TOP
        decreases 3 - general.i
        invariant general.i <= 3
        invariant templates[..] == ts[templateNo := t.(a := AddRow1UpTo(t.a, errors.x, 3 * general.i),
                                                       b := AddRow1UpTo(t.b, errors.u, 3 * general.i))]
      {
        ghost var i := general.i;
        general.j := PATCH_BOT;
        while general.j <= PATCH_TOP
          decreases 3 - general.j
          invariant general.i == i < 3 && general.j <= 3
          invariant templates[..] == ts[templateNo := t.(a := AddRow1UpTo(t.a, errors.x, 3 * general.i + general.j),
                                                         b := AddRow1UpTo(t.b, errors.u, 3 * general.i + general.j))]
        {
          Row1Next(t.a, errors.x, general.i, general.j);
          Row1Next(t.b, errors.u, general.i, general.j);
          if general.i == 1 {
            TemplatePixelUpdate(templateNo, 'A', general.i, general.j, errors.x.At(general.i, general.j));
            TemplatePixelUpdate(templateNo, 'B', general.i, general.j, errors.u.At(general.i, general.j));
          }
          general.j := general.j + 1;
        }
        general.i := general.i + 1;
      }
      Row1Ends(t.a, errors.x);
      Row1Ends(t.b, errors.u);
    }

    method TemplateUpdate1d(templateNo: u16)
      requires Valid() && templateNo < TEMPLATES
      modifies general`i, general`j, mpu, templates
      ensures Valid() && Value() == TemplateUpdated1d(old(Value()), templateNo)
    {
      hide ImageStore.Valid, World.Valid, AddRow1, AddGrid, S16, Scaled;
      S16OfNarrow(templates[templateNo].x);
      S16OfNarrow(templates[templateNo].u);
      UpdatePatches1d(templateNo);
      TemplatePixelUpdate(templateNo, 'I', 0, 0, errors.i);
      TemplatePixelUpdate(templateNo, 'x', 0, 0, 0);
      TemplatePixelUpdate(templateNo, 'u', 0, 0, 0);
    }

    /** The loops of template_update_2d. */
    method UpdatePatches2d(templateNo: u16)
      requires templateNo < templates.Length
      modifies general`i, general`j, mpu, templates
      ensures var t := old(templates[templateNo]);
        templates[..] == old(templates[..])[templateNo := t.(a := AddGrid(t.a, errors.x), b := AddGrid(t.b, errors.u))]
    {
      hide AddUpTo, AddGrid, Grid.At, Grid.Put, S16;
      ghost var ts := templates[..];
      ghost var t := ts[templateNo];
      GridStarts(errors.x, errors.u, t);
      general.i := PATCH_BOT;
      while general.i <= PATCH_TOP
        modifies general`i, general`j, mpu, templates
        decreases 3 - general.i
        invariant general.i <= 3
        invariant templates[..] == ts[templateNo := t.(a := AddUpTo(t.a, errors.x, 3 * general.i),
                                                       b := AddUpTo(t.b, errors.u, 3 * general.i))]
      {
        ghost var i := general.i;
        general.j := PATCH_BOT;
        while general.j <= PATCH_TOP
          modifies general`j, mpu, templates
          decreases 3 - general.j
          invariant general.i == i < 3 && general.j <= 3
          invariant templates[..] == ts[templateNo := t.(a := AddUpTo(t.a, errors.x, 3 * general.i + general.j),
                                                         b := AddUpTo(t.b, errors.u, 3 * general.i + general.j))]
        {
          GridNext(t.a, errors.x, general.i, general.j);
          GridNext(t.b, errors.u, general.i, general.j);
          TemplatePixelUpdate(templateNo, 'A', general.i, general.j, errors.x.At(general.i, general.j));
          TemplatePixelUpdate(templateNo, 'B', general.i, general.j, errors.u.At(general.i, general.j));
          general.j := general.j + 1;
        }
        general.i := general.i + 1;
      }
      GridEnds(t.a, errors.x);
      GridEnds(t.b, errors.u);
    }

    /** The image has pixels: error_get divides by their number. */
    ghost predicate HasPixels()
      reads store
    {
      store.shift > 0
    }

    /** `errors.u[i][j] = (*mpu.error_u.. * cnn.learn_rate) / (busFMax * image.shift)` */
    method ErrorCellU(i: nat, j: nat)
      requires device.Valid() && HasPixels() && i < 3 && j < 3
      modifies device, errors`u
      ensures device.Valid() && device.hw == old(device.hw)
      ensures device.monitor == old(device.monitor).Require(old(device.monitor).known.Ready?)
      ensures errors.u == old(errors.u).Put(i, j, Scaled(device.hw.errors.u.At(i, j), cnn.learnRate, store.shift))
    {
      hide Scaled, Observed;
      var e := device.LoadError(ErrorU(i, j));
      errors.u := errors.u.Put(i, j, Scaled(e, cnn.learnRate, store.shift));
    }

    /** The nine u registers of error_get. */
    method ErrorGetU()
      requires device.Valid() && HasPixels()
      modifies device, errors`u
      ensures device.Valid() && device.hw == old(device.hw)
      ensures device.monitor == old(device.monitor).Require(old(device.monitor).known.Ready?)
      ensures errors.u == ScaledGrid(device.hw.errors.u, cnn.learnRate, store.shift)
    {
      hide Scaled, Observed;
      ErrorCellU(0, 0);
      ErrorCellU(0, 1);
      ErrorCellU(0, 2);
      ErrorCellU(1, 0);
      ErrorCellU(1, 1);
      ErrorCellU(1, 2);
      ErrorCellU(2, 0);
      ErrorCellU(2, 1);
      ErrorCellU(2, 2);
    }

    /** `errors.x[i][j] = (*mpu.error_x.. * cnn.learn_rate) / (busFMax * image.shift)` */
    method ErrorCellX(i: nat, j: nat)
      requires device.Valid() && HasPixels() && i < 3 && j < 3
      modifies device, errors`x
      ensures device.Valid() && device.hw == old(device.hw)
      ensures device.monitor == old(device.monitor).Require(old(device.monitor).known.Ready?)
      ensures errors.x == old(errors.x).Put(i, j, Scaled(device.hw.errors.x.At(i, j), cnn.learnRate, store.shift))
    {
      hide Scaled, Observed;
      var e := device.LoadError(ErrorX(i, j));
      errors.x := errors.x.Put(i, j, Scaled(e, cnn.learnRate, store.shift));
    }

    /** The nine x registers of error_get. */
    method ErrorGetX()
      requires device.Valid() && HasPixels()
      modifies device, errors`x
      ensures device.Valid() && device.hw == old(device.hw)
      ensures device.monitor == old(device.monitor).Require(old(device.monitor).known.Ready?)
      ensures errors.x == ScaledGrid(device.hw.errors.x, cnn.learnRate, store.shift)
    {
      hide Scaled, Observed;
      ErrorCellX(0, 0);
      ErrorCellX(0, 1);
      ErrorCellX(0, 2);
      ErrorCellX(1, 0);
      ErrorCellX(1, 1);
      ErrorCellX(1, 2);
      ErrorCellX(2, 0);
      ErrorCellX(2, 1);
      ErrorCellX(2, 2);
    }

    /** error_get: the 19 error registers, scaled one by one. */
    method ErrorGet()
      requires Valid() && HasPixels()
      modifies device, errors
      ensures Valid() && Value() == ErrorsRead(old(Value()))
      ensures forall i, j :: 0 <= i < 3 && 0 <= j < 3 ==>
        && errors.u.At(i, j) == Scaled(ErrorAt(device.hw.errors, ErrorU(i, j)), cnn.learnRate, store.shift)
        && errors.x.At(i, j) == Scaled(ErrorAt(device.hw.errors, ErrorX(i, j)), cnn.learnRate, store.shift)
      ensures errors.i == Scaled(ErrorAt(device.hw.errors, ErrorI), cnn.learnRate, store.shift)
    {
      hide World.Valid, Scaled, ScaledGrid, Grid.At;
      ErrorGetU();
      ErrorGetX();
      var e := device.LoadError(ErrorI);
      errors.i := Scaled(e, cnn.learnRate, store.shift);
      forall i: nat, j: nat | i < 3 && j < 3
        ensures errors.u.At(i, j) == Scaled(ErrorAt(device.hw.errors, ErrorU(i, j)), cnn.learnRate, store.shift)
        ensures errors.x.At(i, j) == Scaled(ErrorAt(device.hw.errors, ErrorX(i, j)), cnn.learnRate, store.shift)
      {
        ScaledRecord(device.hw.errors, cnn.learnRate, store.shift, i, j);
      }
    }

    method TemplateUpdate2d(templateNo: u16)
      requires Valid() && HasPixels() && templateNo < TEMPLATES
      modifies general`i, general`j, mpu, templates, device, errors
      ensures Valid() && Value() == TemplateUpdated2d(old(Value()), templateNo)
    {
      hide ImageStore.Valid, World.Valid, AddRow1, AddGrid, S16, Scaled, Observed;
      ErrorGet();
      S16OfNarrow(templates[templateNo].x);
      S16OfNarrow(templates[templateNo].u);
      UpdatePatches2d(templateNo);
      TemplatePixelUpdate(templateNo, 'I', 0, 0, errors.i);
      TemplatePixelUpdate(templateNo, 'x', 0, 0, 0);
      TemplatePixelUpdate(templateNo, 'u', 0, 0, 0);
    }

    // ----------------------------------------------------------------------------------------------------------------
    // sys_func.c again: errors and images
    // ----------------------------------------------------------------------------------------------------------------

    /** The inner loop of image_fill. */
    method FillRow(index: u16, value: u16)
      requires Valid() && index < SLOTS && general.i < store.height
      modifies general`j, store`pictures, store.rows
      ensures Valid()
      ensures store.pictures == WithRow(old(store.pictures), index, general.i, UniformRow(store.width, value))
    {
      hide WithRow, WithPixel, WithPixels, Observed;
      ghost var i, pics := general.i, store.pictures;
      ghost var row: seq<u16> := UniformRow(store.width, value);
      WithPixelsEnds(pics, index, i, row);
      general.j := 0;
      while general.j < store.width
        invariant general.j <= store.width
        invariant Valid()
        invariant store.pictures == WithPixels(pics, index, i, row, general.j)
      {
        store.Put(index, general.i, general.j, value);
        WithPixelsSteps(pics, index, i, row, general.j);
        general.j := general.j + 1;
      }
    }

    /** The conversion of image_fill and of the pipeline's time steps to Q6.10, for values that are not negative. */
    static function FixedPoint(data: real): int {
      (data * 1024.0).Floor
    }

    /** image_fill: every pixel of one slot takes the same Q6.10 value. */
    method ImageFill(index: u16, data: real)
      requires Valid() && index < SLOTS && 0 <= FixedPoint(data) < 0x1_0000
      modifies general`i, general`j, store`pictures, store.rows
      ensures Valid()
      ensures Value() == Fill(old(Value()), index, FixedPoint(data))
      ensures Solid(store.pictures[index], store.width, store.height, FixedPoint(data))
      ensures forall s :: 0 <= s < SLOTS && s != index ==> store.pictures[s] == old(store.pictures[s])
    {
      hide FixedPoint, Uniformly, UniformRow, WithRow, WithRows, Solid, Observed;
      var value := FixedPoint(data);
      FillPixels(Value(), index, value);
      ghost var pics := store.pictures;
      ghost var result := Uniformly(store.width, store.height, value);
      WithRowsEnds(pics, index, result);
      general.i := 0;
      while general.i < store.height
        invariant general.i <= store.height
        invariant Valid()
        invariant store.pictures == WithRows(pics, index, result, general.i)
      {
        UniformAt(store.width, store.height, value, general.i);
        FillRow(index, value);
        WithRowsSteps(pics, index, result, general.i);
        general.i := general.i + 1;
      }
    }

    // ----------------------------------------------------------------------------------------------------------------
    // sys_func.c: the host's images
    // ----------------------------------------------------------------------------------------------------------------

    /** The k-th number of a request, high byte first. */
    method ReadWord(ghost bytes: seq<u8>, ghost k: nat) returns (v: u16)
      requires Valid() && 2 * k + 1 < |bytes| && uart.inbox == bytes[2 * k..]
      modifies uart
      ensures Valid() && uart.sent == old(uart.sent) && uart.inbox == bytes[2 * (k + 1)..]
      ensures v == WordAt(bytes, k)
    {
      var high := UartRead();
      v := Shifted(high);
      var low := UartRead();
      FirstWord([high, low]);
      OrByte(v, low);
      v := BitOr(v, low);
    }

    /** The last five numbers of a header are in the fields they are meant for; the number of iterations is one less,
        wrapping at zero. */
    ghost predicate HeaderFields(bytes: seq<u8>)
      reads cnn
    {
      && cnn.ts == WordAt(bytes, 2)
      && cnn.iterCnt == (if WordAt(bytes, 3) == 0 then 0xffff else WordAt(bytes, 3) - 1)
      && cnn.templateNo == WordAt(bytes, 4) && cnn.learnLoop == WordAt(bytes, 5) && cnn.learnRate == WordAt(bytes, 6)
    }

    lemma OneLess(v: u16)
      ensures U16(v - 1) == if v == 0 then 0xffff else v - 1
    {
    }

    lemma FieldsAre(bytes: seq<u8>)
      requires cnn.ts == WordAt(bytes, 2) && cnn.iterCnt == U16(WordAt(bytes, 3) - 1)
      requires cnn.templateNo == WordAt(bytes, 4) && cnn.learnLoop == WordAt(bytes, 5)
      requires cnn.learnRate == WordAt(bytes, 6)
      ensures cnn.Value() == HeaderConfig(bytes) && HeaderFields(bytes)
    {
      hide WordAt;
      OneLess(WordAt(bytes, 3));
    }

    /** The first part of header_read: seven numbers, into the size and the configuration. */
    method ReadHeaderFields() returns (width: u16, height: u16)
      requires Valid() && |uart.inbox| >= 14
      modifies uart, cnn
      ensures Valid() && uart.sent == old(uart.sent) && uart.inbox == old(uart.inbox)[14..]
      ensures width == WordAt(old(uart.inbox), 0) && height == WordAt(old(uart.inbox), 1)
      ensures cnn.Value() == HeaderConfig(old(uart.inbox))
      ensures HeaderFields(old(uart.inbox))
    {
      hide ImageStore.Valid, WordAt, Firmware.Valid, U16, Observed, HeaderConfig, HeaderFields, Cnn.Value;
      ghost var bytes := uart.inbox;
      assert bytes[2 * 0..] == bytes;
      width := ReadWord(bytes, 0);
      height := ReadWord(bytes, 1);
      cnn.ts := ReadWord(bytes, 2);
      cnn.iterCnt := ReadWord(bytes, 3);
      cnn.iterCnt := U16(cnn.iterCnt - 1);
      assert cnn.ts == WordAt(bytes, 2) && cnn.iterCnt == U16(WordAt(bytes, 3) - 1);
      cnn.templateNo := ReadWord(bytes, 4);
      cnn.learnLoop := ReadWord(bytes, 5);
      cnn.learnRate := ReadWord(bytes, 6);
      FieldsAre(bytes);
    }

    /** The body of the loops of image_read: high byte, then low byte, in place. */
    method ReceivePixel(pos: u8)
      requires Valid() && pos < SLOTS && general.i < store.height && general.j < store.width && |uart.inbox| >= 2
      modifies uart, store`pictures, store.rows
      ensures Valid() && uart.sent == old(uart.sent) && uart.inbox == old(uart.inbox)[2..]
      ensures store.pictures == WithPixel(old(store.pictures), pos, general.i, general.j, WordAt(old(uart.inbox), 0))
    {
      hide WithRow, WithPixel, Shifted, WordAt, Observed;
      ghost var pics := store.pictures;
      FirstWord(uart.inbox);
      var high := UartRead();
      store.Put(pos, general.i, general.j, Shifted(high));
      WithPixelTwice(pics, pos, general.i, general.j, Shifted(high), WordAt(old(uart.inbox), 0));
      var low := UartRead();
      store.Or(pos, general.i, general.j, low);
    }

    /** The inner loop of image_read: row i, whose words start at word n of the request. */
    method ReceiveRow(pos: u8, ghost bytes: seq<u8>, ghost n: nat)
      requires Valid() && pos < SLOTS && general.i < store.height && n == RowStart(general.i, store.width)
      requires 2 * (n + store.width) <= |bytes| && uart.inbox == bytes[2 * n..]
      modifies general`j, uart, store`pictures, store.rows
      ensures Valid() && uart.sent == old(uart.sent) && uart.inbox == bytes[2 * (n + store.width)..]
      ensures store.pictures == WithRow(old(store.pictures), pos, general.i, DecodedRow(bytes, general.i, store.width))
    {
      hide WithRow, WithPixel, WithPixels, WordAt, Observed;
      ghost var i, pics, row := general.i, store.pictures, DecodedRow(bytes, general.i, store.width);
      RowStartIs(i, store.width);
      WithPixelsEnds(pics, pos, i, row);
      general.j := 0;
      while general.j < store.width
        invariant general.j <= store.width
        invariant Valid() && uart.sent == old(uart.sent)
        invariant uart.inbox == bytes[2 * (n + general.j)..]
        invariant store.pictures == WithPixels(pics, pos, i, row, general.j)
      {
        WordAtShift(bytes, n + general.j);
        ReceivePixel(pos);
        WithPixelsSteps(pics, pos, i, row, general.j);
        general.j := general.j + 1;
      }
    }

    /** The outer loop of image_read. */
    method ReceiveRows(pos: u8)
      requires Valid() && pos < SLOTS && 2 * RowStart(store.height, store.width) <= |uart.inbox|
      modifies general`i, general`j, uart, store`pictures, store.rows
      ensures Valid() && uart.sent == old(uart.sent)
      ensures uart.inbox == old(uart.inbox)[2 * RowStart(store.height, store.width)..]
      ensures store.pictures == old(store.pictures)[pos := Decoded(old(uart.inbox), store.width, store.height)]
    {
      hide Decoded, DecodedRow, RowStart, WithRow, WithRows, Observed;
      ghost var bytes, pics := uart.inbox, store.pictures;
      ghost var w: nat, h: nat := store.width, store.height;
      ghost var result := Decoded(bytes, w, h);
      ghost var n: nat := 0;
      RowStartNext(0, w);
      WithRowsEnds(pics, pos, result);
      general.i := 0;
      while general.i < store.height
        invariant general.i <= store.height && n == RowStart(general.i, w)
        invariant Valid() && uart.sent == old(uart.sent)
        invariant 2 * n <= |bytes| && uart.inbox == bytes[2 * n..]
        invariant store.pictures == WithRows(pics, pos, result, general.i)
      {
        RowInRange(general.i, w, h);
        RowStartNext(general.i, w);
        DecodedAt(bytes, w, h, general.i);
        ReceiveRow(pos, bytes, n);
        WithRowsSteps(pics, pos, result, general.i);
        n := n + w;
        general.i := general.i + 1;
      }
    }

    /** image_read: the host chooses a slot and sends its pixels in row-major order. */
    method ImageRead()
      requires Valid() && |uart.inbox| >= 1 + 2 * (store.width * store.height) && uart.inbox[0] < SLOTS
      modifies general`i, general`j, uart, store`pictures, store.rows
      ensures Valid() && Value() == ImageReceived(old(Value()))
    {
      hide Decoded, RowStart;
      ghost var n: nat := Area(store.width, store.height);
      RowsAre(store.width, store.height);
      ShiftSlices(uart.inbox, 2 * n);
      var pos := UartRead();
      ReceiveRows(pos);
    }

    /** The body of the loops of image_send. */
    method SendPixel(pos: u8)
      requires Valid() && pos < SLOTS && general.i < store.height && general.j < store.width
      modifies uart
      ensures Valid() && uart.inbox == old(uart.inbox)
      ensures var v := store.pictures[pos][general.i][general.j];
        uart.sent == old(uart.sent) + [v / 0x100] + [v % 0x100]
    {
      UartWrite(store.image[pos][general.i][general.j] / 0x100);
      UartWrite(store.image[pos][general.i][general.j] % 0x100);
    }

    /** The inner loop of image_send. */
    method SendRow(pos: u8, ghost row: seq<u16>)
      requires Valid() && pos < SLOTS && general.i < store.height && row == store.pictures[pos][general.i]
      modifies general`j, uart
      ensures Valid() && uart.sent == old(uart.sent) + Encoded(row) && uart.inbox == old(uart.inbox)
    {
      hide Encoded;
      EncodedNone();
      general.j := 0;
      while general.j < store.width
        invariant general.j <= store.width
        invariant Valid() && uart.sent == old(uart.sent) + Encoded(row[..general.j]) && uart.inbox == old(uart.inbox)
      {
        EncodedNext(row, general.j);
        SendPixel(pos);
        general.j := general.j + 1;
      }
      assert row[..general.j] == row;
    }

    /** image_send: the host chooses a slot and gets its pixels, high byte first. */
    method ImageSend()
      requires Valid() && |uart.inbox| >= 1 && uart.inbox[0] < SLOTS
      modifies general`i, general`j, uart
      ensures Valid() && Value() == ImageSent(old(Value()))
    {
      hide Encoded, Flatten, RowsEncoded;
      var pos := UartRead();
      ghost var sent, pic := uart.sent, store.pictures[pos];
      RowsEncodedEnds(pic);
      general.i := 0;
      while general.i < store.height
        invariant general.i <= store.height
        invariant Valid() && uart.sent == sent + RowsEncoded(pic, general.i) && uart.inbox == old(uart.inbox)[1..]
      {
        RowsEncodedNext(pic, general.i);
        SendRow(pos, pic[general.i]);
        general.i := general.i + 1;
      }
    }

    // ----------------------------------------------------------------------------------------------------------------
    // sys_func.c: errors and templates for the host
    // ----------------------------------------------------------------------------------------------------------------

    method SendWord32(v: s16)
      requires Valid()
      modifies uart
      ensures Valid() && uart.sent == old(uart.sent) + Bytes32(v) && uart.inbox == old(uart.inbox)
    {
      UartWrite(Bytes32(v)[0]);
      UartWrite(Bytes32(v)[1]);
      UartWrite(Bytes32(v)[2]);
      UartWrite(Bytes32(v)[3]);
    }

    method SendWord16(v: s16)
      requires Valid()
      modifies uart, mpu
      ensures Valid() && uart.sent == old(uart.sent) + Bytes16(v) && uart.inbox == old(uart.inbox)
    {
      mpu.templateVar := v;
      UartWrite(U16(mpu.templateVar) / 0x100);
      UartWrite(U16(mpu.templateVar) % 0x100);
    }

    /** One of the two loops of error_send. */
    method SendErrorGrid(g: Grid<s16>)
      requires Valid()
      modifies general`i, general`j, uart
      ensures Valid() && uart.sent == old(uart.sent) + ErrorCells(g, 9) && uart.inbox == old(uart.inbox)
    {
      hide ImageStore.Valid, Bytes32, Grid.At, ErrorCells;
      NoCells(g);
      general.i := PATCH_BOT;
      while general.i <= PATCH_TOP
        decreases 3 - general.i
        invariant general.i <= 3 && Valid()
        invariant uart.sent == old(uart.sent) + ErrorCells(g, 3 * general.i) && uart.inbox == old(uart.inbox)
      {
        ghost var i := general.i;
        general.j := PATCH_BOT;
        while general.j <= PATCH_TOP
          modifies general`j, uart
          decreases 3 - general.j
          invariant general.i == i < 3 && general.j <= 3 && Valid()
          invariant uart.sent == old(uart.sent) + ErrorCells(g, 3 * i + general.j) && uart.inbox == old(uart.inbox)
        {
          NextCell(g, i, general.j);
          SendWord32(g.At(general.i, general.j));
          general.j := general.j + 1;
        }
        general.i := general.i + 1;
      }
    }

    /** error_send */
    method ErrorSend()
      requires Valid() && HasPixels()
      modifies general`i, general`j, device, errors, uart
      ensures Valid() && Value() == ErrorsSent(old(Value()))
    {
      hide ImageStore.Valid, ErrorCells, Bytes32, ScaledErrors, ErrorMessage;
      ErrorGet();
      ErrorsAfter(uart.sent, errors.Value());
      SendErrorGrid(errors.x);
      SendErrorGrid(errors.u);
      SendWord32(errors.i);
    }

    /** One of the two loops of template_send. */
    method SendTemplateGrid(g: Grid<s16>)
      requires Valid()
      modifies general`i, general`j, uart, mpu
      ensures Valid() && uart.sent == old(uart.sent) + TemplateCells(g, 9) && uart.inbox == old(uart.inbox)
    {
      hide ImageStore.Valid, Bytes16, Grid.At, TemplateCells, Observed;
      NoCells(g);
      general.i := PATCH_BOT;
      while general.i <= PATCH_TOP
        decreases 3 - general.i
        invariant general.i <= 3 && Valid()
        invariant uart.sent == old(uart.sent) + TemplateCells(g, 3 * general.i) && uart.inbox == old(uart.inbox)
      {
        ghost var i := general.i;
        general.j := PATCH_BOT;
        while general.j <= PATCH_TOP
          modifies general`j, uart, mpu
          decreases 3 - general.j
          invariant general.i == i < 3 && general.j <= 3 && Valid()
          invariant uart.sent == old(uart.sent) + TemplateCells(g, 3 * i + general.j) && uart.inbox == old(uart.inbox)
        {
          NextCell(g, i, general.j);
          SendWord16(g.At(general.i, general.j));
          general.j := general.j + 1;
        }
        general.i := general.i + 1;
      }
    }

    /** template_send: the host names a template and gets its coefficients. */
    method TemplateSend()
      requires Valid() && |uart.inbox| >= 2 && WordAt(uart.inbox, 0) < TEMPLATES
      modifies general`i, general`j, uart, mpu
      ensures Valid() && Value() == TemplateSent(old(Value()))
    {
      hide ImageStore.Valid, TemplateCells, Bytes16, WordAt, TemplateMessage;
      assert uart.inbox[2 * 0..] == uart.inbox;
      var templateNo := ReadWord(uart.inbox, 0);
      TemplateAfter(uart.sent, templates[templateNo]);
      SendTemplateGrid(templates[templateNo].a);
      SendTemplateGrid(templates[templateNo].b);
      SendWord16(templates[templateNo].i);
      SendWord16(templates[templateNo].x);
      SendWord16(templates[templateNo].u);
    }

    // ----------------------------------------------------------------------------------------------------------------
    // cnn_algorithm.c
    // ----------------------------------------------------------------------------------------------------------------

    /** algorithm1: one run with the parameters the host set. */
    method DirectCnn()
      requires Valid() && cnn.templateNo < TEMPLATES
      modifies general`i, general`j, device, store`pictures, store.rows, uart
      ensures Valid()
      ensures Value() == Algorithm1(device.chip, old(Value()))
    {
      hide ImageStore.Valid, World.Valid, Drive, Send, Fill;
      hide ErrorsRead, TemplateCreated, TemplateUpdated1d, TemplateUpdated2d;
      UartWrite(2);

      CnnDriver(0, 1, 2, cnn.templateNo, cnn.iterCnt, cnn.ts);
      UartWrite(2);
    }

    static lemma PipelineConstants()
      ensures FixedPoint(0.0) == 0 && FixedPoint(0.1) == 102 && FixedPoint(1.0) == 1024
    {
    }

    /** algorithm2: a fixed pipeline of four runs. */
    method CnnPipeline()
      requires Valid()
      modifies general`i, general`j, device, store`pictures, store.rows, uart
      ensures Valid()
      ensures Value() == Algorithm2(device.chip, old(Value()))
    {
      hide FixedPoint, Firmware.Valid, Firmware.Value, ImageStore.Valid, World.Valid, Drive, Send, Fill;
      hide ErrorsRead, TemplateCreated, TemplateUpdated1d, TemplateUpdated2d;
      PipelineConstants();
      UartWrite(2);

      ImageFill(1, 0.0);
      CnnDriver(0, 1, 2, 2, 100, FixedPoint(0.1));
      ImageFill(3, 0.0);
      CnnDriver(1, 3, 2, 12, 1, FixedPoint(1.0));
      ImageFill(4, 0.0);
      CnnDriver(3, 4, 2, 8, 1, FixedPoint(1.0));
      CnnDriver(4, 1, 2, 4, 1, FixedPoint(1.0));
      UartWrite(2);
    }

    lemma ConfigIs()
      requires Valid()
      ensures Value().cnn == cnn.Value()
    {
    }

    /** The body of the loop of algorithm3. */
    method Turn1d()
      requires Valid() && HasPixels()
      modifies general`i, general`j, mpu, templates, device, errors, store`pictures, store.rows
      ensures Valid()
      ensures Value() == Step(device.chip, Learn1d, old(Value()))
    {
      hide Firmware.Valid, Firmware.Value, ImageStore.Valid, World.Valid;
      hide Drive, ErrorsRead, TemplateUpdated1d, TemplateUpdated2d;
      ConfigIs();
      CnnDriver(0, 1, 2, 1, cnn.iterCnt, cnn.ts);

      ErrorGet();
      TemplateUpdate1d(1);
    }

    /** The learning loop of algorithm3. */
    method Loop1d()
      requires Valid() && (cnn.learnLoop > 0 ==> HasPixels())
      modifies general, mpu, templates, device, errors, store`pictures, store.rows
      ensures Valid()
      ensures Value() == Learn(device.chip, Learn1d, old(Value()), cnn.learnLoop)
    {
      hide Firmware.Valid, Firmware.Value, ImageStore.Valid, World.Valid, Step, Learn;
      ghost var start := Value();
      LearnZero(device.chip, Learn1d, start);
      general.k := 0;
      while general.k < cnn.learnLoop
        invariant general.k <= cnn.learnLoop
        invariant Valid()
        invariant Value() == Learn(device.chip, Learn1d, start, general.k)
      {
        LearnNext(device.chip, Learn1d, start, general.k);
        Turn1d();
        general.k := general.k + 1;
      }
    }

    /** algorithm3: 1-D learning. */
    method Learning1d()
      requires Valid() && (cnn.learnLoop > 0 ==> HasPixels())
      modifies general, mpu, templates, device, errors, store`pictures, store.rows, uart
      ensures Valid()
      ensures Value() == LearningAlgorithm(device.chip, Learn1d, old(Value()))
    {
      hide Firmware.Valid, Firmware.Value, ImageStore.Valid, World.Valid;
      hide Send, TemplateCreated, Step, Learn;
      ConfigIs();
      UartWrite(2);
      TemplateCreate(1);

      Loop1d();

      UartWrite(2);
    }

    /** The body of the loop of algorithm4: the second update uses the errors read after the first run. */
    method TurnMultilayer()
      requires Valid() && HasPixels()
      modifies general`i, general`j, mpu, templates, device, errors, store`pictures, store.rows
      ensures Valid()
      ensures Value() == Step(device.chip, LearnMultilayer, old(Value()))
    {
      hide Firmware.Valid, Firmware.Value, ImageStore.Valid, World.Valid;
      hide Drive, ErrorsRead, TemplateUpdated1d, TemplateUpdated2d;
      ConfigIs();
      CnnDriver(0, 1, 2, 1, cnn.iterCnt, cnn.ts);

      ErrorGet();
      TemplateUpdate1d(1);

      ConfigIs();
      CnnDriver(0, 1, 2, 2, cnn.iterCnt, cnn.ts);

      TemplateUpdate1d(2);
    }

    /** The learning loop of algorithm4. */
    method LoopMultilayer()
      requires Valid() && (cnn.learnLoop > 0 ==> HasPixels())
      modifies general, mpu, templates, device, errors, store`pictures, store.rows
      ensures Valid()
      ensures Value() == Learn(device.chip, LearnMultilayer, old(Value()), cnn.learnLoop)
    {
      hide Firmware.Valid, Firmware.Value, ImageStore.Valid, World.Valid, Step, Learn;
      ghost var start := Value();
      LearnZero(device.chip, LearnMultilayer, start);
      general.k := 0;
      while general.k < cnn.learnLoop
        invariant general.k <= cnn.learnLoop
        invariant Valid()
        invariant Value() == Learn(device.chip, LearnMultilayer, start, general.k)
      {
        LearnNext(device.chip, LearnMultilayer, start, general.k);
        TurnMultilayer();
        general.k := general.k + 1;
      }
    }

    /** algorithm4: 1-D multilayer learning. */
    method LearningMultilayer()
      requires Valid() && (cnn.learnLoop > 0 ==> HasPixels())
      modifies general, mpu, templates, device, errors, store`pictures, store.rows, uart
      ensures Valid()
      ensures Value() == LearningAlgorithm(device.chip, LearnMultilayer, old(Value()))
    {
      hide Firmware.Valid, Firmware.Value, ImageStore.Valid, World.Valid;
      hide Send, TemplateCreated, Step, Learn;
      ConfigIs();
      UartWrite(2);
      TemplateCreate(1);
      TemplateCreate(2);

      LoopMultilayer();

      UartWrite(2);
    }

    /** The body of the loop of algorithm5: the errors are read twice. */
    method Turn2d()
      requires Valid() && HasPixels()
      modifies general`i, general`j, mpu, templates, device, errors, store`pictures, store.rows
      ensures Valid()
      ensures Value() == Step(device.chip, Learn2d, old(Value()))
    {
      hide Firmware.Valid, Firmware.Value, ImageStore.Valid, World.Valid;
      hide Drive, ErrorsRead, TemplateUpdated1d, TemplateUpdated2d;
      ConfigIs();
      CnnDriver(0, 1, 2, 1, cnn.iterCnt, cnn.ts);

      ErrorGet();
      TemplateUpdate2d(1);
    }

    /** The learning loop of algorithm5. */
    method Loop2d()
      requires Valid() && (cnn.learnLoop > 0 ==> HasPixels())
      modifies general, mpu, templates, device, errors, store`pictures, store.rows
      ensures Valid()
      ensures Value() == Learn(device.chip, Learn2d, old(Value()), cnn.learnLoop)
    {
      hide Firmware.Valid, Firmware.Value, ImageStore.Valid, World.Valid, Step, Learn;
      ghost var start := Value();
      LearnZero(device.chip, Learn2d, start);
      general.k := 0;
      while general.k < cnn.learnLoop
        invariant general.k <= cnn.learnLoop
        invariant Valid()
        invariant Value() == Learn(device.chip, Learn2d, start, general.k)
      {
        LearnNext(device.chip, Learn2d, start, general.k);
        Turn2d();
        general.k := general.k + 1;
      }
    }

    /** algorithm5: 2-D learning. */
    method Learning2d()
      requires Valid() && (cnn.learnLoop > 0 ==> HasPixels())
      modifies general, mpu, templates, device, errors, store`pictures, store.rows, uart
      ensures Valid()
      ensures Value() == LearningAlgorithm(device.chip, Learn2d, old(Value()))
    {
      hide Firmware.Valid, Firmware.Value, ImageStore.Valid, World.Valid;
      hide Send, TemplateCreated, Step, Learn;
      ConfigIs();
      UartWrite(2);
      TemplateCreate(1);

      Loop2d();

      UartWrite(2);
    }

    lemma ShiftIs()
      requires Valid()
      ensures store.shift == store.width * store.height && templates.Length == TEMPLATES
    {
    }

    /** algorithm_run */
    method AlgorithmRun()
      requires Valid() && |uart.inbox| > 0 && Runnable(Value(), uart.inbox[0])
      modifies general, mpu, templates, device, errors, store`pictures, store.rows, uart
      ensures Valid()
      ensures Value() == Command(device.chip, Read(old(Value()), 1), old(uart.inbox[0]))
    {
      hide ImageStore.Valid, World.Valid, Algorithm1, Algorithm2, LearningAlgorithm;
      ShiftIs();
      var cmd := UartRead();
      match cmd {
        case 1 => DirectCnn();
        case 2 => CnnPipeline();
        case 3 => Learning1d();
        case 4 => LearningMultilayer();
        case 5 => Learning2d();
        case _ =>
      }
    }

    // ----------------------------------------------------------------------------------------------------------------
    // sys_init.c
    // ----------------------------------------------------------------------------------------------------------------

    ghost predicate ZeroRow(row: array<u16>, s: int, k: int, owner: map<array<u16>, (int, int)>)
      reads store`width, row
    {
      row in owner && owner[row] == (s, k) && row.Length == store.width && row[..] == UniformRow(store.width, 0)
    }

    /** One slot: `height` new rows of zeros. */
    method AllocateSlot(ghost owned: map<array<u16>, (int, int)>)
      returns (slot: array<array<u16>>, ghost owner: map<array<u16>, (int, int)>)
      requires forall row :: row in owned ==> owned[row].0 < general.i
      modifies general`j
      ensures fresh(slot) && slot.Length == store.height
      ensures forall row :: row in owner && row !in owned ==> fresh(row)
      ensures forall row :: row in owned ==> row in owner && owner[row] == owned[row]
      ensures forall row :: row in owner ==> owner[row].0 <= general.i
      ensures forall k :: 0 <= k < store.height ==> ZeroRow(slot[k], general.i, k, owner)
    {
      hide Observed;
      var blank := new u16[0];
      slot := new array<u16>[store.height](_ => blank);
      owner := owned;
      general.j := 0;
      while general.j < store.height
        modifies general`j, slot
        invariant general.j <= store.height
        invariant forall row :: row in owner && row !in owned ==> fresh(row)
        invariant forall row :: row in owned ==> row in owner && owner[row] == owned[row]
        invariant forall row :: row in owner ==> owner[row].0 <= general.i && allocated(row)
        invariant forall k :: 0 <= k < general.j ==> ZeroRow(slot[k], general.i, k, owner)
      {
        var row := new u16[store.width](_ => 0);
        slot[general.j] := row;
        owner := owner[row := (general.i, general.j)];
        general.j := general.j + 1;
      }
    }

    /** The outer loop: 20 slots. */
    method AllocateSlots()
      returns (image: array<array<array<u16>>>, ghost slots: set<array<array<u16>>>,
               ghost owner: map<array<u16>, (int, int)>)
      modifies general`i, general`j
      ensures fresh(image) && fresh(slots) && fresh(owner.Keys) && image.Length == 20
      ensures forall s :: 0 <= s < 20 ==> image[s] in slots && image[s].Length == store.height
      ensures forall s, k :: 0 <= s < 20 && 0 <= k < store.height ==> ZeroRow(image[s][k], s, k, owner)
    {
      var none := new array<u16>[0];
      image := new array<array<u16>>[20](_ => none);
      owner := map[];
      slots := {};
      general.i := 0;
      while general.i < 20
        modifies general`i, general`j, image
        invariant general.i <= 20
        invariant forall s :: 0 <= s < general.i ==> image[s] in slots && image[s].Length == store.height
        invariant fresh(slots) && fresh(owner.Keys)
        invariant forall row :: row in owner ==> owner[row].0 < general.i
        invariant forall s, k :: 0 <= s < general.i && 0 <= k < store.height ==> ZeroRow(image[s][k], s, k, owner)
      {
        var slot;
        slot, owner := AllocateSlot(owner);
        image[general.i] := slot;
        slots := slots + {slot};
        general.i := general.i + 1;
      }
    }

    /** The reallocation that init_image and header_read share, for the size in the store. */
    method ReplaceImages()
      modifies general`i, general`j, store
      ensures store.width == old(store.width) && store.height == old(store.height) && store.count == old(store.count)
      ensures store.count == 20 ==> store.Valid()
      ensures fresh(store.image) && fresh(store.slots) && fresh(store.rows)
      ensures store.pictures == BlackImages(store.width, store.height)
      ensures forall s :: 0 <= s < 20 ==> Solid(store.pictures[s], store.width, store.height, 0)
    {
      BlackPixels(store.width, store.height);
      ghost var slots, owner;
      store.image, slots, owner := AllocateSlots();
      AreaFits(store.width, store.height);
      store.shift := store.width * store.height;
      store.pictures := BlackImages(store.width, store.height);
      store.slots, store.rows, store.owner := slots, owner.Keys, owner;
    }

    /** init_image: 20 slots of 128 x 128 zero pixels. */
    method InitImage()
      modifies general`i, general`j, store
      ensures store.Valid() && fresh(store.image) && fresh(store.slots) && fresh(store.rows)
      ensures store.width == store.height == 128
      ensures store.pictures == BlackImages(128, 128)
      ensures forall s :: 0 <= s < 20 ==> Solid(store.pictures[s], 128, 128, 0)
    {
      store.width := 128;
      store.height := 128;
      store.count := 20;
      ReplaceImages();
    }

    /** The four configuration registers of header_read. */
    method WriteHeaderRegisters(width: u16, height: u16)
      requires device.Valid()
      modifies device
      ensures device.Valid()
      ensures device.hw == old(device.hw).(width := width, height := height, ts := cnn.ts, iterations := cnn.iterCnt)
      ensures device.monitor ==
        old(device.monitor).Commanded(1, width).Commanded(2, height).Commanded(3, cnn.ts).Commanded(4, cnn.iterCnt)
    {
      hide Monitor.Commanded;
      CommandWrite(CMD_CACHE_WIDTH, width);
      CommandWrite(CMD_CACHE_HEIGHT, height);
      CommandWrite(CMD_TS, cnn.ts);
      CommandWrite(CMD_ITER_CNT, cnn.iterCnt);
    }

    /** header_read: reset, size and parameters from the host, new black images, and an acknowledgement. */
    method HeaderRead()
      requires Valid() && |uart.inbox| >= 14
      modifies general`i, general`j, store, cnn, uart, device
      ensures Valid() && fresh(store.image) && fresh(store.slots) && fresh(store.rows)
      ensures Value() == HeaderReceived(device.chip, old(Value()))
      ensures store.width == WordAt(old(uart.inbox), 0) && store.height == WordAt(old(uart.inbox), 1)
      ensures HeaderFields(old(uart.inbox))
      ensures forall s :: 0 <= s < 20 ==> Solid(store.pictures[s], store.width, store.height, 0)
    {
      store.CountIs();
      hide ImageStore.Valid, Solid, WordAt, BlackImages, Monitor.Commanded;
      CommandWrite(CMD_STATE_RST, 1);

      var width, height := ReadHeaderFields();

      WriteHeaderRegisters(width, height);

      store.width, store.height := width, height;
      ReplaceImages();
      UartWrite(1);
    }

    method InitGeneral()
      modifies general
      ensures general.i == general.j == general.k == 0
    {
      general.i := 0;
      general.j := 0;
      general.k := 0;
    }

    method InitCnn()
      modifies cnn
      ensures cnn.Value() == Config(1, 3, 0, 100, 10)
      ensures cnn.ts == 1 && cnn.iterCnt == 3 && cnn.templateNo == 0 && cnn.learnLoop == 100 && cnn.learnRate == 10
    {
      cnn.ts := 1;
      cnn.iterCnt := 3;
      cnn.templateNo := 0;
      cnn.learnLoop := 100;
      cnn.learnRate := 10;
    }

    method L2CacheSetDimensions(width: u16, height: u16)
      requires device.Valid()
      modifies device
      ensures device.Valid()
      ensures 0 < width < L2CACHE_WIDTH_MAX && 0 < height < L2CACHE_HEIGHT_MAX ==>
        && device.hw == old(device.hw).(width := width, height := height)
        && device.monitor == old(device.monitor).Commanded(1, width).Commanded(2, height)
      ensures !(0 < width < L2CACHE_WIDTH_MAX && 0 < height < L2CACHE_HEIGHT_MAX) ==> unchanged(device)
    {
      if width > 0 && width < L2CACHE_WIDTH_MAX {
        if height > 0 && height < L2CACHE_HEIGHT_MAX {
          CommandWrite(CMD_CACHE_WIDTH, width);
          CommandWrite(CMD_CACHE_HEIGHT, height);
        }
      }
    }

    /** The guards of l2cache_setdimensions exclude the maximal size this passes, so nothing is written. */
    method InitL2Cache()
      requires device.Valid()
      modifies device
      ensures unchanged(device)
    {
      L2CacheSetDimensions(L2CACHE_WIDTH_MAX, L2CACHE_HEIGHT_MAX);
    }

    method InitSystem()
      requires device.Valid() && Quiet(device.hw) && templates.Length == TEMPLATES
      modifies general, store, cnn, device
      ensures Valid() && fresh(store.image) && fresh(store.slots) && fresh(store.rows)
      ensures Value() ==
        Initialised(device.chip, old(templates[..]), old(errors.Value()), old(device.hw), old(device.monitor),
                    old(uart.sent), old(uart.inbox))
      ensures forall s :: 0 <= s < 20 ==> Solid(store.pictures[s], 128, 128, 0)
      ensures store.width == store.height == 128 && templates[..] == old(templates[..])
      ensures cnn.ts == 1 && cnn.iterCnt == 3 && cnn.templateNo == 0 && cnn.learnLoop == 100 && cnn.learnRate == 10
    {
      hide ImageStore.Valid, Solid;
      InitGeneral();
      InitImage();
      InitCnn();

      InitL2Cache();

      CommandWrite(CMD_STATE_RST, 1);
    }

    /** One turn of the loop of main: a command byte, and what it asks for. */
    method ServeOne()
      requires Valid() && Servable(Value())
      modifies general, mpu, templates, device, errors, cnn, uart, store, store.rows
      ensures Valid() && fresh(store.rows - old(store.rows))
      ensures Value() == Served(device.chip, old(Value()))
    {
      hide ImageStore.Valid, World.Valid, HeaderReceived, ImageReceived, ImageSent, ErrorsSent, TemplateSent, Command;
      ShiftIs();
      var cmd := UartRead();
      match cmd {
        case 0 => HeaderRead();
        case 1 => ImageRead();
        case 2 => AlgorithmRun();
        case 3 => ImageSend();
        case 4 => ErrorSend();
        case 5 => TemplateSend();
        case _ =>
      }
    }
  }
}
