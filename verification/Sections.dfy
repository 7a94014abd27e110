/** What the sections and the loops of the firmware's functions have done part of the way through, on values: the terms
    in which their invariants are written, and the step from one turn to the next. */
module Sections {
  import opened Words
  import opened Grids
  import opened Pictures
  import opened Hardware
  import opened Semantics

  /** Accesses that configure a run. */
  function ConfigSeen(m: Monitor, width: u16, height: u16): Monitor {
    m.(safe := m.safe && !m.known.Busy?, width := width, height := height,
       tally := m.tally.(width := true, height := true, ts := true, iterations := true))
  }

  function CoeffsSeen(m: Monitor): Monitor {
    m.(safe := m.safe && !m.known.Busy?, tally := m.tally.(coeffs := Same(true)))
  }

  function PulsesSeen(m: Monitor, n: nat): Monitor {
    if n == 0 then m else
      m.(safe := m.safe && !m.known.Busy?,
         tally := m.tally.(u := m.tally.u + n, x := m.tally.x + n, ideal := m.tally.ideal + n))
  }

  /** Reset pulsed and ready seen. */
  function RunSeen(m: Monitor): Monitor {
    m.(known := Ready, safe := m.safe && !m.known.Busy? && m.tally.Complete(m.width * m.height),
       starts := m.starts + 1, tally := NOTHING)
  }

  /** The first n cells in row-major order cleared. */
  function ZeroUpTo(g: Grid<s16>, n: nat): Grid<s16> {
    Grid(if n > 0 then 0 else g.p00, if n > 1 then 0 else g.p01, if n > 2 then 0 else g.p02,
         if n > 3 then 0 else g.p10, if n > 4 then 0 else g.p11, if n > 5 then 0 else g.p12,
         if n > 6 then 0 else g.p20, if n > 7 then 0 else g.p21, if n > 8 then 0 else g.p22)
  }

  lemma ZeroEnds(g: Grid<s16>)
    ensures ZeroUpTo(g, 0) == g && ZeroUpTo(g, 9) == Uniform(0)
  {
  }

  lemma ZeroNext(g: Grid<s16>, i: nat, j: nat)
    requires i < 3 && j < 3
    ensures ZeroUpTo(g, 3 * i + (j + 1)) == ZeroUpTo(g, 3 * i + j).Put(i, j, 0)
  {
  }

  /** The cells of row 1 among the first n updated. */
  function AddRow1UpTo(g: Grid<s16>, e: Grid<s16>, n: nat): Grid<s16> {
    g.(p10 := if n > 3 then S16(g.p10 + e.p10) else g.p10,
       p11 := if n > 4 then S16(g.p11 + e.p11) else g.p11,
       p12 := if n > 5 then S16(g.p12 + e.p12) else g.p12)
  }

  /** The first n cells updated. */
  function AddUpTo(g: Grid<s16>, e: Grid<s16>, n: nat): Grid<s16> {
    Grid(if n > 0 then S16(g.p00 + e.p00) else g.p00,
         if n > 1 then S16(g.p01 + e.p01) else g.p01,
         if n > 2 then S16(g.p02 + e.p02) else g.p02,
         if n > 3 then S16(g.p10 + e.p10) else g.p10,
         if n > 4 then S16(g.p11 + e.p11) else g.p11,
         if n > 5 then S16(g.p12 + e.p12) else g.p12,
         if n > 6 then S16(g.p20 + e.p20) else g.p20,
         if n > 7 then S16(g.p21 + e.p21) else g.p21,
         if n > 8 then S16(g.p22 + e.p22) else g.p22)
  }

  lemma GridStarts(ex: Grid<s16>, eu: Grid<s16>, t: Template)
    ensures t.(a := AddUpTo(t.a, ex, 0), b := AddUpTo(t.b, eu, 0)) == t
  {
  }

  lemma GridNext(g: Grid<s16>, e: Grid<s16>, i: nat, j: nat)
    requires i < 3 && j < 3
    ensures var d := AddUpTo(g, e, 3 * i + j);
      AddUpTo(g, e, 3 * i + (j + 1)) == d.Put(i, j, S16(d.At(i, j) + e.At(i, j)))
  {
  }

  lemma GridEnds(g: Grid<s16>, e: Grid<s16>)
    ensures AddUpTo(g, e, 9) == AddGrid(g, e)
  {
  }

  lemma Row1Starts(ex: Grid<s16>, eu: Grid<s16>, t: Template)
    ensures t.(a := AddRow1UpTo(t.a, ex, 0), b := AddRow1UpTo(t.b, eu, 0)) == t
  {
  }

  lemma Row1Next(g: Grid<s16>, e: Grid<s16>, i: nat, j: nat)
    requires i < 3 && j < 3
    ensures var d := AddRow1UpTo(g, e, 3 * i + j);
      AddRow1UpTo(g, e, 3 * i + (j + 1)) == if i == 1 then d.Put(i, j, S16(d.At(i, j) + e.At(i, j))) else d
  {
  }

  lemma Row1Ends(g: Grid<s16>, e: Grid<s16>)
    ensures AddRow1UpTo(g, e, 9) == AddRow1(g, e)
  {
  }

  /** The four sections of the driver, put together: the monitor's view ... */
  lemma MonitorSections(m: Monitor, width: u16, height: u16)
    ensures RunSeen(PulsesSeen(CoeffsSeen(ConfigSeen(m, width, height)), width * height))
            == DriverSeen(m, width, height)
  {
  }

  ghost predicate PicturesLoaded(pics: seq<Picture>, width: u16, height: u16,
                                 u: nat, x: nat, ideal: nat, before: Hw, after: Hw)
    requires |pics| == SLOTS && u < SLOTS && x < SLOTS && ideal < SLOTS
    requires forall s :: 0 <= s < SLOTS ==> Shaped(pics[s], width, height)
  {
    FlattenLength(pics[u], width, height);
    FlattenLength(pics[x], width, height);
    FlattenLength(pics[ideal], width, height);
    after == Loaded(before, Flatten(pics[u]), Flatten(pics[x]), Flatten(pics[ideal]), width * height)
  }

  /** ... and the device's. */
  lemma DriveSections(chip: Chip, w: World, u: nat, x: nat, ideal: nat, t: nat, iterations: u16, ts: u16,
                      hw1: Hw, hw2: Hw)
    requires w.Valid(chip) && u < SLOTS && x < SLOTS && ideal < SLOTS && t < TEMPLATES
    requires hw1 == Configured(w.hw, w.width, w.height, ts, iterations, w.templates[t])
    requires PicturesLoaded(w.pics, w.width, w.height, u, x, ideal, hw1, hw2)
    ensures var hw3 := Completed(chip, hw2);
      && hw3.Sized(chip) && Quiet(hw3)
      && Drive(chip, w, u, x, ideal, t, iterations, ts) ==
         w.(pics := w.pics[x := Unloaded(hw3.x.cells, w.width, w.height)],
            hw := hw3.(x := Scanned(hw3.x, Area(w.width, w.height))),
            monitor := DriverSeen(w.monitor, w.width, w.height))
  {
  }

  lemma UniformAt(width: nat, height: nat, v: u16, i: nat)
    requires i < height
    ensures Uniformly(width, height, v)[i] == UniformRow(width, v)
  {
  }

  lemma UnloadedAt(cells: seq<u16>, width: nat, height: nat, i: nat)
    requires i < height && |cells| > 0
    ensures Unloaded(cells, width, height)[i] == UnloadedRow(cells, i, width)
  {
  }

  lemma RowsAre(width: u16, height: u16)
    ensures RowStart(height, width) == Area(width, height)
  {
    RowStartIs(height, width);
    Commute(height, width);
  }

  lemma ShiftSlices(bytes: seq<u8>, n: nat)
    requires 1 + n <= |bytes|
    ensures bytes[1..][n..] == bytes[1 + n..]
  {
  }

  lemma DecodedAt(bytes: seq<u8>, width: nat, height: nat, i: nat)
    requires i < height
    ensures Decoded(bytes, width, height)[i] == DecodedRow(bytes, i, width)
  {
  }

  /** The bytes of the first n rows of a picture. */
  function RowsEncoded(pic: Picture, n: nat): seq<u8>
    requires n <= |pic|
  {
    Encoded(Flatten(pic[..n]))
  }

  lemma RowsEncodedNext(pic: Picture, n: nat)
    requires n < |pic|
    ensures RowsEncoded(pic, n + 1) == RowsEncoded(pic, n) + Encoded(pic[n])
  {
    assert pic[..n + 1][..n] == pic[..n];
    EncodedConcat(Flatten(pic[..n]), pic[n]);
  }

  lemma RowsEncodedEnds(pic: Picture)
    ensures RowsEncoded(pic, 0) == [] && RowsEncoded(pic, |pic|) == Encoded(Flatten(pic))
  {
    assert pic[..|pic|] == pic;
    EncodedNone();
  }

  lemma ErrorsAfter(sent: seq<u8>, e: Errors<s16>)
    ensures sent + ErrorCells(e.x, 9) + ErrorCells(e.u, 9) + Bytes32(e.i) == sent + ErrorMessage(e)
  {
    hide ErrorCells, Bytes32;
  }

  lemma TemplateAfter(sent: seq<u8>, t: Template)
    ensures sent + TemplateCells(t.a, 9) + TemplateCells(t.b, 9) + Bytes16(t.i) + Bytes16(t.x) + Bytes16(t.u)
            == sent + TemplateMessage(t)
  {
    hide TemplateCells, Bytes16;
  }

  lemma NoCells(g: Grid<s16>)
    ensures ErrorCells(g, 0) == TemplateCells(g, 0) == []
  {
  }

  lemma NextCell(g: Grid<s16>, i: nat, j: nat)
    requires i < 3 && j < 3
    ensures ErrorCells(g, 3 * i + (j + 1)) == ErrorCells(g, 3 * i + j) + Bytes32(g.At(i, j))
    ensures TemplateCells(g, 3 * i + (j + 1)) == TemplateCells(g, 3 * i + j) + Bytes16(g.At(i, j))
  {
  }

  lemma WordAtShift(bytes: seq<u8>, k: nat)
    requires 2 * k + 1 < |bytes|
    ensures WordAt(bytes[2 * k..], 0) == WordAt(bytes, k)
    ensures bytes[2 * k..][2..] == bytes[2 * (k + 1)..]
  {
  }

  /** A byte moved to the upper half of a word. */
  function Shifted(b: u8): u16 {
    b * 0x100
  }

  lemma FirstWord(bytes: seq<u8>)
    requires |bytes| >= 2
    ensures WordAt(bytes, 0) == Shifted(bytes[0]) + bytes[1] && Shifted(bytes[0]) % 0x100 == 0
  {
  }

  lemma PixelAddress(ram: Ram, i: nat, j: nat, width: nat)
    requires j < width && |ram.cells| > 0 && !ram.writeEnable
    ensures var r := ram.Set(Address, U16(j + i * width));
      r == ram.(address := U16(j + i * width)) && r.DataOut() == UnloadedRow(ram.cells, i, width)[j]
  {
  }

  lemma LoadedNone(hw: Hw, u: seq<u16>, x: seq<u16>, ideal: seq<u16>)
    ensures Loaded(hw, u, x, ideal, 0) == hw
  {
  }

  lemma LoadedNext(hw: Hw, u: seq<u16>, x: seq<u16>, ideal: seq<u16>, n: nat)
    requires n < |u| && n < |x| && n < |ideal|
    ensures var l := Loaded(hw, u, x, ideal, n);
      Loaded(hw, u, x, ideal, n + 1) == l.(
        u := Written(l.u, U16(n), u[n]), x := Written(l.x, U16(n), x[n]), ideal := Written(l.ideal, U16(n), ideal[n]))
  {
  }

  lemma PulsesAdd(m: Monitor, n: nat, k: nat)
    ensures PulsesSeen(PulsesSeen(m, n), k) == PulsesSeen(m, n + k)
  {
  }
}
