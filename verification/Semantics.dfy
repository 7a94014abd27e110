/** What the firmware's operations do, as functions on the whole state. The methods of class Firmware are proved against
    these functions; the properties of the firmware are lemmas about them. */
module Semantics {
  import opened Words
  import opened Grids
  import opened Pictures
  import opened Hardware

  const SLOTS: nat := 20
  const TEMPLATES: nat := 15
  const BUS_F_MAX: nat := 1024

  /** cnn_struct: the run parameters the host sets. */
  datatype Config = Config(ts: u16, iterations: u16, templateNo: u16, learnLoop: u16, learnRate: u16)

  /** The firmware's globals and the device, without the scratch variables (loop counters and template_var).
      `sent` is what went out on the UART, `inbox` what the host has sent and the firmware has not read yet. */
  datatype World = World(
    width: u16, height: u16, pics: seq<Picture>,
    templates: seq<Template>, errors: Errors<s16>, cnn: Config,
    hw: Hw, monitor: Monitor, sent: seq<u8>, inbox: seq<u8>)
  {
    /** 20 images of the current size, 15 templates, RAMs of the chip's size with write enable low. */
    ghost predicate Valid(chip: Chip) {
      && |pics| == SLOTS
      && (forall s :: 0 <= s < SLOTS ==> Shaped(pics[s], width, height))
      && |templates| == TEMPLATES
      && hw.Sized(chip)
      && Quiet(hw)
    }
  }

  // ------------------------------------------------------------------------------------------------------------------
  // cnn_driver
  // ------------------------------------------------------------------------------------------------------------------

  /** One l2cache write: address, data, write-enable pulse. */
  function Written(ram: Ram, address: u16, data: u16): Ram {
    ram.Set(Address, address).Set(DataIn, data).Set(WriteEnable, 1).Set(WriteEnable, 0)
  }

  /** The pulse writes one cell: setting address and data before it, and lowering write enable after it, writes no
      other. */
  lemma WrittenCell(ram: Ram, address: u16, data: u16)
    requires !ram.writeEnable && |ram.cells| > 0
    ensures Written(ram, address, data) ==
      Ram(address, data, false, ram.cells[address % |ram.cells| := data])
  {
  }

  /** The first n pixels of a flattened image written in order. The address wraps at 16 bits and again at the size of
      the RAM, so in a picture that does not fit a later pixel overwrites an earlier one. */
  function Filled(ram: Ram, flat: seq<u16>, n: nat): (r: Ram)
    requires n <= |flat|
    ensures |r.cells| == |ram.cells|
    ensures !ram.writeEnable ==> !r.writeEnable
  {
    if n == 0 then ram else Written(Filled(ram, flat, n - 1), U16(n - 1), flat[n - 1])
  }

  function Loaded(hw: Hw, u: seq<u16>, x: seq<u16>, ideal: seq<u16>, n: nat): Hw
    requires n <= |u| && n <= |x| && n <= |ideal|
  {
    hw.(u := Filled(hw.u, u, n), x := Filled(hw.x, x, n), ideal := Filled(hw.ideal, ideal, n))
  }

  /** Reading n pixels leaves the last address in the address register. */
  function Scanned(ram: Ram, n: nat): Ram {
    if n == 0 then ram else ram.(address := U16(n - 1))
  }

  function UnloadedRow(cells: seq<u16>, i: nat, width: nat): (r: seq<u16>)
    requires |cells| > 0
    ensures |r| == width
  {
    seq(width, j requires 0 <= j < width => cells[CellOf(i, j, width, |cells|)])
  }

  /** The picture read back from a RAM. */
  function Unloaded(cells: seq<u16>, width: nat, height: nat): (p: Picture)
    requires |cells| > 0
    ensures Shaped(p, width, height)
  {
    seq(height, i requires 0 <= i < height => UnloadedRow(cells, i, width))
  }

  function Configured(hw: Hw, width: u16, height: u16, ts: u16, iterations: u16, t: Template): Hw {
    hw.(width := width, height := height, ts := ts, iterations := iterations, coeffs := t)
  }

  /** Reset pulsed, then polled until ready. */
  function Completed(chip: Chip, hw: Hw): (r: Hw)
    ensures r.phase.Done?
  {
    var job := hw.CurrentJob();
    hw.(phase := Running(0, job)).Finished(chip)
  }

  /** What the monitor has seen after a driver call: one more start; still safe if it was, provided the device was not
      busy on entry and no write-enable pulse was left over from before. */
  function DriverSeen(m: Monitor, width: u16, height: u16): Monitor {
    Monitor(Ready, m.safe && !m.known.Busy? && m.tally.u == m.tally.x == m.tally.ideal == 0, m.starts + 1,
            width, height, NOTHING)
  }

  function Drive(chip: Chip, w: World, u: nat, x: nat, ideal: nat, t: nat, iterations: u16, ts: u16): (r: World)
    requires w.Valid(chip) && u < SLOTS && x < SLOTS && ideal < SLOTS && t < TEMPLATES
    ensures r.Valid(chip) && r.cnn == w.cnn
  {
    var n := w.width * w.height;
    FlattenLength(w.pics[u], w.width, w.height);
    FlattenLength(w.pics[x], w.width, w.height);
    FlattenLength(w.pics[ideal], w.width, w.height);
    var configured := Configured(w.hw, w.width, w.height, ts, iterations, w.templates[t]);
    var loaded := Loaded(configured, Flatten(w.pics[u]), Flatten(w.pics[x]), Flatten(w.pics[ideal]), n);
    var completed := Completed(chip, loaded);
    w.(pics := w.pics[x := Unloaded(completed.x.cells, w.width, w.height)],
       hw := completed.(x := Scanned(completed.x, n)),
       monitor := DriverSeen(w.monitor, w.width, w.height))
  }

  // ------------------------------------------------------------------------------------------------------------------
  // Templates and errors
  // ------------------------------------------------------------------------------------------------------------------

  /** One error register scaled to a coefficient step: a 32-bit product, a 64-bit quotient truncated toward zero, and a
      16-bit store. An image without pixels makes the C quotient undefined. */
  function Scaled(error: s32, rate: u16, pixels: nat): s16 {
    if pixels == 0 then 0 else S16(TruncatedQuotient(S32(error * rate), BUS_F_MAX * pixels))
  }

  function ScaledGrid(g: Grid<s32>, rate: u16, pixels: nat): Grid<s16> {
    Grid(Scaled(g.p00, rate, pixels), Scaled(g.p01, rate, pixels), Scaled(g.p02, rate, pixels),
         Scaled(g.p10, rate, pixels), Scaled(g.p11, rate, pixels), Scaled(g.p12, rate, pixels),
         Scaled(g.p20, rate, pixels), Scaled(g.p21, rate, pixels), Scaled(g.p22, rate, pixels))
  }

  function ScaledErrors(e: Errors<s32>, rate: u16, pixels: nat): Errors<s16> {
    Errors(ScaledGrid(e.u, rate, pixels), ScaledGrid(e.x, rate, pixels), Scaled(e.i, rate, pixels))
  }

  /** error_get */
  function ErrorsRead(w: World): World {
    w.(errors := ScaledErrors(w.hw.errors, w.cnn.learnRate, w.width * w.height),
       monitor := w.monitor.Require(w.monitor.known.Ready?))
  }

  /** A store to one coefficient, named as the C functions name it. Any other letter names none. */
  predicate IsLocation(loc: char) {
    loc == 'A' || loc == 'B' || loc == 'I' || loc == 'x' || loc == 'u'
  }

  function CoeffAt(t: Template, loc: char, i: nat, j: nat): s16
    requires IsLocation(loc) && (loc == 'A' || loc == 'B' ==> i < 3 && j < 3)
  {
    if loc == 'A' then t.a.At(i, j)
    else if loc == 'B' then t.b.At(i, j)
    else if loc == 'I' then t.i
    else if loc == 'x' then t.x
    else t.u
  }

  function WithCoeff(t: Template, loc: char, i: nat, j: nat, v: s16): Template
    requires loc == 'A' || loc == 'B' ==> i < 3 && j < 3
  {
    if loc == 'A' then t.(a := t.a.Put(i, j, v))
    else if loc == 'B' then t.(b := t.b.Put(i, j, v))
    else if loc == 'I' then t.(i := v)
    else if loc == 'x' then t.(x := v)
    else if loc == 'u' then t.(u := v)
    else t
  }

  /** Storing to one coefficient changes that coefficient and no other. */
  lemma CoeffStored(t: Template, loc: char, i: nat, j: nat, v: s16, other: char, r: nat, c: nat)
    requires IsLocation(loc) && (loc == 'A' || loc == 'B' ==> i < 3 && j < 3)
    requires IsLocation(other) && (other == 'A' || other == 'B' ==> r < 3 && c < 3)
    ensures var same := loc == other && (loc == 'A' || loc == 'B' ==> i == r && j == c);
      CoeffAt(WithCoeff(t, loc, i, j, v), other, r, c) == if same then v else CoeffAt(t, other, r, c)
  {
  }

  function AddRow1(g: Grid<s16>, e: Grid<s16>): Grid<s16> {
    g.(p10 := S16(g.p10 + e.p10), p11 := S16(g.p11 + e.p11), p12 := S16(g.p12 + e.p12))
  }

  function AddGrid(g: Grid<s16>, e: Grid<s16>): Grid<s16> {
    Grid(S16(g.p00 + e.p00), S16(g.p01 + e.p01), S16(g.p02 + e.p02),
         S16(g.p10 + e.p10), S16(g.p11 + e.p11), S16(g.p12 + e.p12),
         S16(g.p20 + e.p20), S16(g.p21 + e.p21), S16(g.p22 + e.p22))
  }

  /** template_update_1d on one template: only the middle rows and the bias move. */
  function Updated1d(t: Template, e: Errors<s16>): Template {
    t.(a := AddRow1(t.a, e.x), b := AddRow1(t.b, e.u), i := S16(t.i + e.i))
  }

  /** The same for every row. */
  function Updated2d(t: Template, e: Errors<s16>): Template {
    t.(a := AddGrid(t.a, e.x), b := AddGrid(t.b, e.u), i := S16(t.i + e.i))
  }

  function WithTemplate(w: World, t: nat, c: Template): World
    requires t < |w.templates|
  {
    w.(templates := w.templates[t := c])
  }

  /** template_create */
  function TemplateCreated(w: World, t: nat): World
    requires t < |w.templates|
  {
    WithTemplate(w, t, Same(0))
  }

  /** template_update_1d */
  function TemplateUpdated1d(w: World, t: nat): World
    requires t < |w.templates|
  {
    WithTemplate(w, t, Updated1d(w.templates[t], w.errors))
  }

  /** template_update_2d reads the errors itself. */
  function TemplateUpdated2d(w: World, t: nat): World
    requires t < |w.templates|
  {
    var m := ErrorsRead(w);
    WithTemplate(m, t, Updated2d(m.templates[t], m.errors))
  }

  // ------------------------------------------------------------------------------------------------------------------
  // Algorithms
  // ------------------------------------------------------------------------------------------------------------------

  function Send(w: World, b: u8): World {
    w.(sent := w.sent + [b])
  }

  /** n bytes read from the UART. */
  function Read(w: World, n: nat): World
    requires n <= |w.inbox|
  {
    w.(inbox := w.inbox[n..])
  }

  function UniformRow(width: nat, v: u16): (r: seq<u16>)
    ensures |r| == width
  {
    seq(width, j => v)
  }

  function Uniformly(width: nat, height: nat, v: u16): (p: Picture)
    ensures Shaped(p, width, height)
  {
    seq(height, i => UniformRow(width, v))
  }

  /** The only picture of that size and colour. */
  lemma SolidUnique(p: Picture, width: nat, height: nat, v: u16)
    ensures Solid(p, width, height, v) <==> p == Uniformly(width, height, v)
  {
    if Solid(p, width, height, v) {
      forall i: nat | i < height
        ensures p[i] == Uniformly(width, height, v)[i]
      {
      }
    }
  }

  function BlackImages(width: nat, height: nat): (pics: seq<Picture>)
    ensures |pics| == SLOTS && forall s :: 0 <= s < SLOTS ==> Shaped(pics[s], width, height)
  {
    seq(SLOTS, s => Uniformly(width, height, 0))
  }

  /** image_fill */
  function Fill(w: World, s: nat, v: u16): World
    requires s < |w.pics|
  {
    w.(pics := w.pics[s := Uniformly(w.width, w.height, v)])
  }

  /** image_fill gives every pixel of one slot the value, and nothing else changes. */
  lemma FillPixels(w: World, s: nat, v: u16)
    requires s < |w.pics|
    ensures var r := Fill(w, s, v);
      && |r.pics| == |w.pics| && Solid(r.pics[s], w.width, w.height, v)
      && (forall k :: 0 <= k < |w.pics| && k != s ==> r.pics[k] == w.pics[k])
      && r == w.(pics := r.pics)
  {
    SolidUnique(Uniformly(w.width, w.height, v), w.width, w.height, v);
  }

  /** Newly allocated images are black: every pixel of every slot is zero. */
  lemma BlackPixels(width: nat, height: nat)
    ensures |BlackImages(width, height)| == SLOTS
    ensures forall s :: 0 <= s < SLOTS ==> Solid(BlackImages(width, height)[s], width, height, 0)
  {
    SolidUnique(Uniformly(width, height, 0), width, height, 0);
  }

  function Algorithm1(chip: Chip, w: World): (r: World)
    requires w.Valid(chip) && w.cnn.templateNo < TEMPLATES
    ensures r.Valid(chip) && r.cnn == w.cnn
  {
    Send(Drive(chip, Send(w, 2), 0, 1, 2, w.cnn.templateNo, w.cnn.iterations, w.cnn.ts), 2)
  }

  function Algorithm2(chip: Chip, w: World): (r: World)
    requires w.Valid(chip)
    ensures r.Valid(chip) && r.cnn == w.cnn
  {
    var w1 := Drive(chip, Fill(Send(w, 2), 1, 0), 0, 1, 2, 2, 100, 102);
    var w2 := Drive(chip, Fill(w1, 3, 0), 1, 3, 2, 12, 1, 1024);
    var w3 := Drive(chip, Fill(w2, 4, 0), 3, 4, 2, 8, 1, 1024);
    Send(Drive(chip, w3, 4, 1, 2, 4, 1, 1024), 2)
  }

  /** The device run of a learning loop: slots 0, 1, 2 with template t. */
  function Trial(chip: Chip, w: World, t: nat): (r: World)
    requires w.Valid(chip) && t < TEMPLATES
    ensures r.Valid(chip) && r.cnn == w.cnn
  {
    Drive(chip, w, 0, 1, 2, t, w.cnn.iterations, w.cnn.ts)
  }

  function Step3(chip: Chip, w: World): (r: World)
    requires w.Valid(chip)
    ensures r.Valid(chip) && r.cnn == w.cnn
  {
    TemplateUpdated1d(ErrorsRead(Trial(chip, w, 1)), 1)
  }

  function Step4(chip: Chip, w: World): (r: World)
    requires w.Valid(chip)
    ensures r.Valid(chip) && r.cnn == w.cnn
  {
    TemplateUpdated1d(Trial(chip, Step3(chip, w), 2), 2)
  }

  /** The algorithm reads the errors once and template_update_2d reads them again. */
  function Step5(chip: Chip, w: World): (r: World)
    requires w.Valid(chip)
    ensures r.Valid(chip) && r.cnn == w.cnn
  {
    TemplateUpdated2d(ErrorsRead(Trial(chip, w, 1)), 1)
  }

  datatype Learner = Learn1d | LearnMultilayer | Learn2d

  function Step(chip: Chip, kind: Learner, w: World): (r: World)
    requires w.Valid(chip)
    ensures r.Valid(chip) && r.cnn == w.cnn
  {
    match kind
    case Learn1d => Step3(chip, w)
    case LearnMultilayer => Step4(chip, w)
    case Learn2d => Step5(chip, w)
  }

  /** n turns of a learning loop. */
  function Learn(chip: Chip, kind: Learner, w: World, n: nat): (r: World)
    requires w.Valid(chip)
    ensures r.Valid(chip) && r.cnn == w.cnn
  {
    if n == 0 then w else Step(chip, kind, Learn(chip, kind, w, n - 1))
  }

  lemma LearnZero(chip: Chip, kind: Learner, w: World)
    requires w.Valid(chip)
    ensures Learn(chip, kind, w, 0) == w
  {
  }

  lemma LearnNext(chip: Chip, kind: Learner, w: World, n: nat)
    requires w.Valid(chip)
    ensures Learn(chip, kind, w, n + 1) == Step(chip, kind, Learn(chip, kind, w, n))
  {
  }

  /** The state at the head of a learning loop. */
  function Prepared(chip: Chip, kind: Learner, w: World): (r: World)
    requires w.Valid(chip)
    ensures r.Valid(chip) && r.cnn == w.cnn
  {
    var m := TemplateCreated(Send(w, 2), 1);
    if kind.LearnMultilayer? then TemplateCreated(m, 2) else m
  }

  /** algorithm3, algorithm4 and algorithm5 */
  function LearningAlgorithm(chip: Chip, kind: Learner, w: World): (r: World)
    requires w.Valid(chip)
    ensures r.Valid(chip) && r.cnn == w.cnn
  {
    Send(Learn(chip, kind, Prepared(chip, kind, w), w.cnn.learnLoop), 2)
  }

  /** Direct CNN uses the template the host named; no other command looks at that number. */
  predicate Named(cnn: Config, cmd: u8) {
    cmd == 1 ==> cnn.templateNo < TEMPLATES
  }

  /** algorithm_run on a command byte. */
  function Command(chip: Chip, w: World, cmd: u8): (r: World)
    requires w.Valid(chip) && Named(w.cnn, cmd)
    ensures r.Valid(chip) && r.cnn == w.cnn
  {
    match cmd
    case 1 => Algorithm1(chip, w)
    case 2 => Algorithm2(chip, w)
    case 3 => LearningAlgorithm(chip, Learn1d, w)
    case 4 => LearningAlgorithm(chip, LearnMultilayer, w)
    case 5 => LearningAlgorithm(chip, Learn2d, w)
    case _ => w
  }

  // ------------------------------------------------------------------------------------------------------------------
  // The host's requests
  // ------------------------------------------------------------------------------------------------------------------

  function CommandSent(chip: Chip, hw: Hw, address: u16, data: u16): Hw {
    hw.Commanded(chip, address * 0x1_0000 + data)
  }

  function BigEndian(high: u8, low: u8): u16 {
    high * 0x100 + low
  }

  /** The k-th 16-bit number of a byte stream, high byte first. */
  function WordAt(bytes: seq<u8>, k: nat): u16 {
    if 2 * k + 1 < |bytes| then BigEndian(bytes[2 * k], bytes[2 * k + 1]) else 0
  }

  /** The words of one image row. */
  function DecodedRow(bytes: seq<u8>, i: nat, width: nat): (r: seq<u16>)
    ensures |r| == width
  {
    seq<u16>(width, j requires 0 <= j < width => WordAt(bytes, i * width + j))
  }

  function Decoded(bytes: seq<u8>, width: nat, height: nat): (p: Picture)
    ensures Shaped(p, width, height)
  {
    seq(height, i requires 0 <= i < height => DecodedRow(bytes, i, width))
  }

  function Encoded(words: seq<u16>): (bytes: seq<u8>)
    ensures |bytes| == 2 * |words|
  {
    if words == [] then [] else
      var last := words[|words| - 1];
      Encoded(words[..|words| - 1]) + [last / 0x100, last % 0x100]
  }

  lemma EncodedNone()
    ensures Encoded([]) == []
  {
  }

  lemma EncodedNext(words: seq<u16>, k: nat)
    requires k < |words|
    ensures Encoded(words[..k + 1]) == Encoded(words[..k]) + [words[k] / 0x100] + [words[k] % 0x100]
  {
    assert words[..k + 1][..k] == words[..k];
  }

  lemma {:induction false} EncodedConcat(a: seq<u16>, b: seq<u16>)
    ensures Encoded(a + b) == Encoded(a) + Encoded(b)
  {
    if b == [] {
      assert a + b == a;
    } else {
      assert (a + b)[..|a + b| - 1] == a + b[..|b| - 1];
      EncodedConcat(a, b[..|b| - 1]);
    }
  }

  /** The parameters of a header. The host sends the number of iterations, the processor counts from zero. */
  function HeaderConfig(bytes: seq<u8>): Config {
    Config(WordAt(bytes, 2), U16(WordAt(bytes, 3) - 1), WordAt(bytes, 4), WordAt(bytes, 5), WordAt(bytes, 6))
  }

  /** header_read: the processor is reset, size and parameters are taken over and written to its registers, and all
      images are replaced by black ones of the new size. */
  function HeaderReceived(chip: Chip, w: World): (r: World)
    requires w.Valid(chip) && |w.inbox| >= 14
    ensures r.Valid(chip)
  {
    var width, height, cnn := WordAt(w.inbox, 0), WordAt(w.inbox, 1), HeaderConfig(w.inbox);
    var hw := CommandSent(chip, w.hw, 6, 1).(
      width := width, height := height, ts := cnn.ts, iterations := cnn.iterations);
    var m := w.monitor.Commanded(6, 1).Commanded(1, width).Commanded(2, height)
      .Commanded(3, cnn.ts).Commanded(4, cnn.iterations);
    World(width, height, BlackImages(width, height), w.templates, w.errors, cnn, hw, m,
          w.sent + [1], w.inbox[14..])
  }

  /** image_read */
  function ImageReceived(w: World): World
    requires |w.inbox| >= 1 + 2 * (w.width * w.height) && w.inbox[0] < |w.pics|
  {
    w.(pics := w.pics[w.inbox[0] := Decoded(w.inbox[1..], w.width, w.height)],
       inbox := w.inbox[1 + 2 * (w.width * w.height)..])
  }

  /** image_send */
  function ImageSent(w: World): World
    requires |w.inbox| >= 1 && w.inbox[0] < |w.pics|
  {
    w.(sent := w.sent + Encoded(Flatten(w.pics[w.inbox[0]])), inbox := w.inbox[1..])
  }

  /** A number as error_send sends it: sign-extended to 32 bits, high byte first. */
  function Bytes32(v: s16): (b: seq<u8>)
    ensures |b| == 4
  {
    var x: u32 := v % 0x1_0000_0000;
    [x / 0x100_0000, x / 0x1_0000 % 0x100, x / 0x100 % 0x100, x % 0x100]
  }

  /** A number as template_send sends it. */
  function Bytes16(v: s16): (b: seq<u8>)
    ensures |b| == 2
  {
    [U16(v) / 0x100, U16(v) % 0x100]
  }

  /** The first n cells of a grid in row-major order, on the wire. */
  function ErrorCells(g: Grid<s16>, n: nat): seq<u8>
    requires n <= 9
  {
    if n == 0 then [] else ErrorCells(g, n - 1) + Bytes32(g.At((n - 1) / 3, (n - 1) % 3))
  }

  function TemplateCells(g: Grid<s16>, n: nat): seq<u8>
    requires n <= 9
  {
    if n == 0 then [] else TemplateCells(g, n - 1) + Bytes16(g.At((n - 1) / 3, (n - 1) % 3))
  }

  function ErrorMessage(e: Errors<s16>): seq<u8> {
    ErrorCells(e.x, 9) + ErrorCells(e.u, 9) + Bytes32(e.i)
  }

  function TemplateMessage(t: Template): seq<u8> {
    TemplateCells(t.a, 9) + TemplateCells(t.b, 9) + Bytes16(t.i) + Bytes16(t.x) + Bytes16(t.u)
  }

  /** error_send: the errors are read afresh, then x, u and i go out. */
  function ErrorsSent(w: World): World {
    var m := ErrorsRead(w);
    m.(sent := m.sent + ErrorMessage(m.errors))
  }

  /** template_send */
  function TemplateSent(w: World): World
    requires |w.inbox| >= 2 && WordAt(w.inbox, 0) < |w.templates|
  {
    w.(sent := w.sent + TemplateMessage(w.templates[WordAt(w.inbox, 0)]),
       inbox := w.inbox[2..])
  }

  /** What one command needs: a template in the table if it uses that number, and an image with pixels if it divides
      errors by their number, which a learning loop does in every turn. */
  predicate Runnable(w: World, cmd: u8) {
    && Named(w.cnn, cmd)
    && (3 <= cmd <= 5 && w.cnn.learnLoop > 0 ==> w.width * w.height > 0)
  }

  /** What one turn of the loop of main needs: a command byte and the bytes of its request; a slot and template numbers
      within their tables; an image with pixels where errors are divided by their number. */
  predicate Servable(w: World)
  {
    && |w.pics| == SLOTS && |w.templates| == TEMPLATES
    && |w.inbox| >= 1
    && match w.inbox[0]
       case 0 => |w.inbox| >= 15
       case 1 => |w.inbox| >= 2 + 2 * (w.width * w.height) && w.inbox[1] < SLOTS
       case 2 => |w.inbox| >= 2 && Runnable(w, w.inbox[1])
       case 3 => |w.inbox| >= 2 && w.inbox[1] < SLOTS
       case 4 => w.width * w.height > 0
       case 5 => |w.inbox| >= 3 && WordAt(w.inbox[1..], 0) < TEMPLATES
       case _ => true
  }

  /** One turn of the loop of main. */
  function Served(chip: Chip, w: World): (r: World)
    requires w.Valid(chip) && Servable(w)
    ensures r.Valid(chip)
  {
    var m := Read(w, 1);
    match w.inbox[0]
    case 0 => HeaderReceived(chip, m)
    case 1 => ImageReceived(m)
    case 2 => Command(chip, Read(m, 1), m.inbox[0])
    case 3 => ImageSent(m)
    case 4 => ErrorsSent(m)
    case 5 => TemplateSent(m)
    case _ => m
  }

  // ------------------------------------------------------------------------------------------------------------------
  // init_system and whole runs
  // ------------------------------------------------------------------------------------------------------------------

  /** init_system: zeroed 128 x 128 images, the default parameters, the processor held in reset. */
  function Initialised(chip: Chip, templates: seq<Template>, errors: Errors<s16>, hw: Hw, m: Monitor,
                       sent: seq<u8>, inbox: seq<u8>): World {
    World(128, 128, BlackImages(128, 128), templates, errors, Config(1, 3, 0, 100, 10),
          CommandSent(chip, hw, 6, 1), m.Commanded(6, 1), sent, inbox)
  }

  /** A sequence of algorithm_run commands. */
  function Run(chip: Chip, w: World, cmds: seq<u8>): (r: World)
    requires w.Valid(chip) && forall k :: 0 <= k < |cmds| ==> Named(w.cnn, cmds[k])
    ensures r.Valid(chip) && r.cnn == w.cnn
  {
    if cmds == [] then w else Command(chip, Run(chip, w, cmds[..|cmds| - 1]), cmds[|cmds| - 1])
  }

  /** A run of the firmware: any number of turns of the loop of main. */
  ghost predicate IsRun(chip: Chip, ws: seq<World>) {
    && ws != []
    && (forall k :: 0 <= k < |ws| ==> ws[k].Valid(chip))
    && (forall k :: 0 <= k < |ws| - 1 ==> Servable(ws[k]) && ws[k + 1] == Served(chip, ws[k]))
  }
}
