/** The host's view: what it sends and what it gets back. */
module Host {
  import opened Words
  import opened Grids
  import opened Pictures
  import opened Hardware
  import opened Semantics
  import opened Driving
  import opened Learning
  import opened Pipeline
  import opened Runs
  import opened Scaling

  // ------------------------------------------------------------------------------------------------------------------
  // Images on the wire
  // ------------------------------------------------------------------------------------------------------------------

  lemma {:induction false} EncodedAt(words: seq<u16>, k: nat)
    requires k < |words|
    ensures Encoded(words)[2 * k] == words[k] / 0x100 && Encoded(words)[2 * k + 1] == words[k] % 0x100
  {
    if k < |words| - 1 {
      EncodedAt(words[..|words| - 1], k);
    }
  }

  /** A word survives the wire. */
  lemma WordAtEncoded(words: seq<u16>, rest: seq<u8>, k: nat)
    requires k < |words|
    ensures WordAt(Encoded(words) + rest, k) == words[k]
  {
    EncodedAt(words, k);
  }

  lemma DecodedPixel(bytes: seq<u8>, width: nat, height: nat, i: nat, j: nat)
    requires i < height && j < width
    ensures Decoded(bytes, width, height)[i][j] == WordAt(bytes, i * width + j)
  {
    hide WordAt;
  }

  lemma EncodedPixel(p: Picture, width: nat, height: nat, rest: seq<u8>, i: nat, j: nat)
    requires Shaped(p, width, height) && i < height && j < width
    ensures WordAt(Encoded(Flatten(p)) + rest, i * width + j) == p[i][j]
  {
    hide WordAt, Encoded, Flatten;
    FlattenAt(p, width, height, i, j);
    WordAtEncoded(Flatten(p), rest, i * width + j);
  }

  /** The firmware reads exactly the picture the host encoded, whatever follows it on the wire. */
  lemma DecodeEncode(p: Picture, width: nat, height: nat, rest: seq<u8>)
    requires Shaped(p, width, height)
    ensures Decoded(Encoded(Flatten(p)) + rest, width, height) == p
  {
    hide WordAt, Encoded, Flatten, Decoded;
    var bytes := Encoded(Flatten(p)) + rest;
    var q := Decoded(bytes, width, height);
    forall i: nat | i < height
      ensures q[i] == p[i]
    {
      forall j: nat | j < width
        ensures q[i][j] == p[i][j]
      {
        DecodedPixel(bytes, width, height, i, j);
        EncodedPixel(p, width, height, rest, i, j);
      }
    }
  }

  lemma DecodedWord(bytes: seq<u8>, width: nat, height: nat, k: nat)
    requires k < width * height
    ensures |Flatten(Decoded(bytes, width, height))| == width * height
    ensures Flatten(Decoded(bytes, width, height))[k] == WordAt(bytes, k)
  {
    hide WordAt;
    var i, j := PixelOf(k, width, height);
    FlattenAt(Decoded(bytes, width, height), width, height, i, j);
  }

  lemma WordBytes(bytes: seq<u8>, k: nat)
    requires 2 * k + 1 < |bytes|
    ensures bytes[2 * k] == WordAt(bytes, k) / 0x100 && bytes[2 * k + 1] == WordAt(bytes, k) % 0x100
  {
  }

  lemma EncodedWords(words: seq<u16>, bytes: seq<u8>)
    requires |bytes| == 2 * |words| && forall k :: 0 <= k < |words| ==> words[k] == WordAt(bytes, k)
    ensures Encoded(words) == bytes
  {
    hide Encoded, WordAt;
    forall b: nat | b < |bytes|
      ensures Encoded(words)[b] == bytes[b]
    {
      var k := b / 2;
      EncodedAt(words, k);
      WordBytes(bytes, k);
      assert b == 2 * k || b == 2 * k + 1;
    }
  }

  /** And what it would send back is exactly what it was sent. */
  lemma EncodeDecode(bytes: seq<u8>, width: nat, height: nat)
    requires |bytes| == 2 * (width * height)
    ensures Encoded(Flatten(Decoded(bytes, width, height))) == bytes
  {
    hide WordAt, Decoded;
    var words := Flatten(Decoded(bytes, width, height));
    FlattenLength(Decoded(bytes, width, height), width, height);
    forall k: nat | k < width * height
      ensures words[k] == WordAt(bytes, k)
    {
      DecodedWord(bytes, width, height, k);
    }
    EncodedWords(words, bytes);
  }

  /** Four bytes read back as two's complement, high byte first. */
  function Joined(b3: u8, b2: u8, b1: u8, b0: u8): s32 {
    S32(0x100_0000 * b3 + 0x1_0000 * b2 + 0x100 * b1 + b0)
  }

  function Word32At(bytes: seq<u8>, k: nat): s32 {
    if 4 * k + 3 < |bytes| then Joined(bytes[4 * k], bytes[4 * k + 1], bytes[4 * k + 2], bytes[4 * k + 3]) else 0
  }

  /** Every coefficient that template_send puts on the wire reads back as itself, row by row. */
  lemma {:induction false} TemplateCellsDecode(g: Grid<s16>, n: nat, k: nat, rest: seq<u8>)
    requires k < n <= 9
    ensures |TemplateCells(g, n)| == 2 * n
    ensures S16(WordAt(TemplateCells(g, n) + rest, k)) == g.At(k / 3, k % 3)
  {
    hide Grid.At, S16;
    if n == 1 {
      assert TemplateCells(g, 0) == [];
    } else {
      TemplateCellsDecode(g, n - 1, if k < n - 1 then k else 0, Bytes16(g.At((n - 1) / 3, (n - 1) % 3)) + rest);
      assert TemplateCells(g, n) + rest
          == TemplateCells(g, n - 1) + (Bytes16(g.At((n - 1) / 3, (n - 1) % 3)) + rest);
    }
    if k == n - 1 {
      S16OfNarrow(g.At(k / 3, k % 3));
    }
  }

  lemma FourBytes(x: u32)
    ensures x == 0x100_0000 * (x / 0x100_0000) + 0x1_0000 * (x / 0x1_0000 % 0x100)
               + 0x100 * (x / 0x100 % 0x100) + x % 0x100
  {
    assert x / 0x1_0000 == x / 0x100 / 0x100;
    assert x / 0x100_0000 == x / 0x1_0000 / 0x100;
  }

  lemma S32OfU32(v: s32)
    ensures S32(v % 0x1_0000_0000) == v
  {
  }

  lemma Word32Survives(v: s16)
    ensures var b := Bytes32(v);
      Joined(b[0], b[1], b[2], b[3]) == v
  {
    hide S32;
    FourBytes(v % 0x1_0000_0000);
    S32OfU32(v);
  }

  /** The same for error_send, in 32 bits. */
  lemma {:induction false} ErrorCellsDecode(g: Grid<s16>, n: nat, k: nat, rest: seq<u8>)
    requires k < n <= 9
    ensures |ErrorCells(g, n)| == 4 * n
    ensures Word32At(ErrorCells(g, n) + rest, k) == g.At(k / 3, k % 3)
  {
    hide Grid.At, Joined, Bytes32;
    var cell := Bytes32(g.At((n - 1) / 3, (n - 1) % 3));
    if n == 1 {
      assert ErrorCells(g, 0) == [];
    } else {
      ErrorCellsDecode(g, n - 1, if k < n - 1 then k else 0, cell + rest);
      assert ErrorCells(g, n) + rest == ErrorCells(g, n - 1) + (cell + rest);
    }
    if k == n - 1 {
      Word32Survives(g.At(k / 3, k % 3));
      assert (ErrorCells(g, n) + rest)[4 * k..4 * k + 4] == cell;
    }
  }

  lemma WordAtAfter(a: seq<u8>, b: seq<u8>, n: nat, k: nat)
    requires |a| == 2 * n
    ensures WordAt(a + b, n + k) == WordAt(b, k)
  {
    assert 2 * k + 1 < |b| ==> (a + b)[2 * (n + k)] == b[2 * k] && (a + b)[2 * (n + k) + 1] == b[2 * k + 1];
  }

  lemma Word16Survives(v: s16, rest: seq<u8>)
    ensures S16(WordAt(Bytes16(v) + rest, 0)) == v
  {
    S16OfNarrow(v);
  }

  lemma Word32AtAfter(a: seq<u8>, b: seq<u8>, n: nat, k: nat)
    requires |a| == 4 * n
    ensures Word32At(a + b, n + k) == Word32At(b, k)
  {
    hide Joined;
    assert 4 * k + 3 < |b| ==> (a + b)[4 * (n + k)..4 * (n + k) + 4] == b[4 * k..4 * k + 4];
  }

  /** The whole of what template_send sends: 21 numbers, from which the host gets the template back. */
  lemma TemplateMessageDecodes(t: Template, i: nat, j: nat)
    requires i < 3 && j < 3
    ensures var m := TemplateMessage(t);
      && |m| == 42
      && S16(WordAt(m, 3 * i + j)) == t.a.At(i, j)
      && S16(WordAt(m, 9 + (3 * i + j))) == t.b.At(i, j)
      && S16(WordAt(m, 18)) == t.i && S16(WordAt(m, 19)) == t.x && S16(WordAt(m, 20)) == t.u
  {
    hide WordAt, S16, Bytes16, TemplateCells, Grid.At;
    var m, k := TemplateMessage(t), 3 * i + j;
    var a, b := TemplateCells(t.a, 9), TemplateCells(t.b, 9);
    var ends := Bytes16(t.i) + (Bytes16(t.x) + Bytes16(t.u));
    assert k / 3 == i && k % 3 == j;
    TemplateCellsDecode(t.a, 9, k, b + ends);
    TemplateCellsDecode(t.b, 9, k, ends);
    assert m == a + (b + ends);
    WordAtAfter(a, b + ends, 9, k);
    WordAtAfter(a, b + ends, 9, 9);
    WordAtAfter(a, b + ends, 9, 10);
    WordAtAfter(a, b + ends, 9, 11);
    WordAtAfter(b, ends, 9, 0);
    WordAtAfter(b, ends, 9, 1);
    WordAtAfter(b, ends, 9, 2);
    WordAtAfter(Bytes16(t.i), Bytes16(t.x) + Bytes16(t.u), 1, 0);
    WordAtAfter(Bytes16(t.i), Bytes16(t.x) + Bytes16(t.u), 1, 1);
    WordAtAfter(Bytes16(t.x), Bytes16(t.u), 1, 0);
    Word16Survives(t.i, Bytes16(t.x) + Bytes16(t.u));
    Word16Survives(t.x, Bytes16(t.u));
    Word16Survives(t.u, []);
    assert Bytes16(t.u) + [] == Bytes16(t.u);
  }

  lemma Word32AtStart(v: s16)
    ensures Word32At(Bytes32(v), 0) == v
  {
    hide Joined, Bytes32;
    Word32Survives(v);
  }

  /** The whole of what error_send sends: the x, the u and the bias errors, signs included. */
  lemma ErrorMessageDecodes(e: Errors<s16>, i: nat, j: nat)
    requires i < 3 && j < 3
    ensures var m := ErrorMessage(e);
      && |m| == 76
      && Word32At(m, 3 * i + j) == e.x.At(i, j)
      && Word32At(m, 9 + (3 * i + j)) == e.u.At(i, j)
      && Word32At(m, 18) == e.i
  {
    hide Word32At, Bytes32, ErrorCells, Grid.At;
    var m, k := ErrorMessage(e), 3 * i + j;
    var x, u, last := ErrorCells(e.x, 9), ErrorCells(e.u, 9), Bytes32(e.i);
    assert k / 3 == i && k % 3 == j;
    ErrorCellsDecode(e.x, 9, k, u + last);
    ErrorCellsDecode(e.u, 9, k, last);
    assert m == x + (u + last);
    Word32AtAfter(x, u + last, 9, k);
    Word32AtAfter(x, u + last, 9, 9);
    Word32AtAfter(u, last, 9, 0);
    Word32AtStart(e.i);
  }

  // ------------------------------------------------------------------------------------------------------------------
  // Requests
  // ------------------------------------------------------------------------------------------------------------------

  function Upload(pos: u8, p: Picture): seq<u8> {
    [1, pos] + Encoded(Flatten(p))
  }

  function Header(bytes: seq<u8>): seq<u8> {
    [0] + bytes
  }

  /** One request at the head of the inbox. */
  predicate Asks(w: World, request: seq<u8>, rest: seq<u8>) {
    w.inbox == request + rest
  }

  lemma UploadServed(chip: Chip, w: World, pos: u8, p: Picture, rest: seq<u8>)
    requires w.Valid(chip) && pos < SLOTS && Shaped(p, w.width, w.height) && Asks(w, Upload(pos, p), rest)
    ensures Servable(w)
    ensures Served(chip, w) == w.(pics := w.pics[pos := p], inbox := rest)
  {
    hide Encoded, Decoded;
    FlattenLength(p, w.width, w.height);
    var wire := Encoded(Flatten(p));
    assert w.inbox[1..][1..] == wire + rest;
    assert w.inbox[1..][1 + 2 * (w.width * w.height)..] == rest;
    DecodeEncode(p, w.width, w.height, rest);
  }

  lemma HeaderServed(chip: Chip, w: World, bytes: seq<u8>, rest: seq<u8>)
    requires w.Valid(chip) && |bytes| == 14 && Asks(w, Header(bytes), rest)
    ensures Servable(w)
    ensures var r := Served(chip, w);
      && r.width == WordAt(bytes, 0) && r.height == WordAt(bytes, 1) && r.cnn == HeaderConfig(bytes)
      && r.pics == BlackImages(r.width, r.height)
      && r.hw == w.hw.(phase := InReset, width := r.width, height := r.height,
                       ts := r.cnn.ts, iterations := r.cnn.iterations)
      && r == w.(width := r.width, height := r.height, pics := r.pics, cnn := r.cnn, hw := r.hw, monitor := r.monitor,
                 sent := w.sent + [1], inbox := rest)
  {
    hide BlackImages;
    var b := w.inbox[1..];
    assert b == bytes + rest;
    assert b[14..] == rest;
    forall k: nat | k < 7
      ensures WordAt(b, k) == WordAt(bytes, k)
    {
    }
  }

  /** A header as the host program sends it: the request byte and seven numbers, each high byte first. */
  function SentHeader(width: u16, height: u16, ts: u16, iterations: u16, template: u16, loop: u16, rate: u16)
    : (bytes: seq<u8>)
    ensures |bytes| == 15
  {
    [0, width / 0x100, width % 0x100, height / 0x100, height % 0x100, ts / 0x100, ts % 0x100,
     iterations / 0x100, iterations % 0x100, template / 0x100, template % 0x100, loop / 0x100, loop % 0x100,
     rate / 0x100, rate % 0x100]
  }

  lemma WordOf(bytes: seq<u8>, k: nat, v: u16)
    requires 2 * k + 1 < |bytes| && bytes[2 * k] == v / 0x100 && bytes[2 * k + 1] == v % 0x100
    ensures WordAt(bytes, k) == v
  {
  }

  lemma LessOne(v: u16)
    ensures U16(v - 1) == if v == 0 then 0xffff else v - 1
  {
  }

  /** Every number of a header arrives in the field it is meant for. The number of iterations is stored as one less, so
      zero becomes 65535. All images are black, the templates and errors stay, the processor is held in reset. */
  lemma HeaderArrives(chip: Chip, w: World, width: u16, height: u16, ts: u16, iterations: u16, template: u16, loop: u16,
                      rate: u16, rest: seq<u8>)
    requires w.Valid(chip) && Asks(w, SentHeader(width, height, ts, iterations, template, loop, rate), rest)
    ensures Servable(w)
    ensures var r := Served(chip, w);
      && r.width == width && r.height == height
      && r.cnn.ts == ts && r.cnn.iterations == (if iterations == 0 then 0xffff else iterations - 1)
      && r.cnn.templateNo == template && r.cnn.learnLoop == loop && r.cnn.learnRate == rate
      && |r.pics| == SLOTS && (forall s :: 0 <= s < SLOTS ==> Solid(r.pics[s], width, height, 0))
      && r.templates == w.templates && r.errors == w.errors && r.sent == w.sent + [1] && r.inbox == rest
      && r.hw == w.hw.(phase := InReset, width := width, height := height, ts := ts, iterations := r.cnn.iterations)
  {
    hide Served, Servable, BlackImages, WordAt, Solid;
    var request := SentHeader(width, height, ts, iterations, template, loop, rate);
    var bytes := request[1..];
    assert request == Header(bytes);
    HeaderServed(chip, w, bytes, rest);
    WordOf(bytes, 0, width);
    WordOf(bytes, 1, height);
    WordOf(bytes, 2, ts);
    WordOf(bytes, 3, iterations);
    WordOf(bytes, 4, template);
    WordOf(bytes, 5, loop);
    WordOf(bytes, 6, rate);
    LessOne(iterations);
    BlackPixels(width, height);
  }

  /** What a command leaves for the host: the state image and the error registers. */
  datatype Reply = Reply(x: Picture, registers: Errors<s32>)

  function LearnerOf(alg: u8): Learner {
    if alg == 3 then Learn1d else if alg == 4 then LearnMultilayer else Learn2d
  }

  /** What each command computes from the host's pictures and parameters and the template table: one answer of the
      processor, the composition of four, or the iteration of a learning turn. An unknown command leaves everything. */
  function Replied(chip: Chip, alg: u8, cnn: Config, templates: seq<Template>, s: Setting, x: Picture, hidden: nat,
                   before: Errors<s32>): Reply
    requires |templates| == TEMPLATES && Named(cnn, alg)
  {
    if alg == 1 then
      var out := Result(chip, hidden, s.width, s.height, s.ts, s.iterations, templates[cnn.templateNo],
                        s.u, x, s.ideal);
      Reply(Unflatten(out.x, s.width, s.height), out.errors)
    else if alg == 2 then
      var (last, second, third, out) := Composed(chip, Input(s.width, s.height, s.u, s.ideal, templates[2],
                                                             templates[12], templates[8], templates[4], hidden),
                                                Uniformly(s.width, s.height, 0));
      Reply(last, out.errors)
    else if 3 <= alg <= 5 then
      var start := Learnt(Same(0), if alg == 4 then Same(0) else templates[2], x, hidden);
      Reply(Turns(chip, LearnerOf(alg), s, start, cnn.learnLoop).x,
            LastRegisters(chip, LearnerOf(alg), s, start, cnn.learnLoop, before))
    else Reply(x, before)
  }

  function Acknowledged(alg: u8): seq<u8> {
    if 1 <= alg <= 5 then [2, 2] else []
  }

  lemma AcknowledgedOnce(alg: u8)
    ensures Acknowledgements([alg]) == Acknowledged(alg)
  {
    assert [alg][..0] == [];
    assert Acknowledgements([]) == [];
  }

  function ReplyTo(chip: Chip, w: World, alg: u8): Reply
    requires |w.pics| == SLOTS && |w.templates| == TEMPLATES && Named(w.cnn, alg)
  {
    Replied(chip, alg, w.cnn, w.templates, SettingOf(w), w.pics[1], w.hw.hidden, w.hw.errors)
  }

  /** What a later download sees of a command. */
  ghost predicate Shows(w: World, alg: u8, reply: Reply, r: World) {
    && |r.pics| == SLOTS && r.pics[1] == reply.x && r.hw.errors == reply.registers
    && r.width == w.width && r.height == w.height && r.cnn == w.cnn
    && r.sent == w.sent + Acknowledged(alg) && r.inbox == w.inbox
  }

  lemma DirectShows(chip: Chip, w: World)
    requires w.Valid(chip) && Named(w.cnn, 1) && Fits(w.width, w.height, chip.cells)
    ensures |w.pics| == SLOTS && |w.templates| == TEMPLATES
    ensures Shows(w, 1, ReplyTo(chip, w, 1), Command(chip, w, 1))
  {
    hide Drive, Result, Unflatten;
    DriverMeaning(chip, Send(w, 2), 0, 1, 2, w.cnn.templateNo, w.cnn.iterations, w.cnn.ts);
  }

  lemma PipelineShows(chip: Chip, w: World)
    requires w.Valid(chip) && Fits(w.width, w.height, chip.cells)
    ensures |w.pics| == SLOTS && |w.templates| == TEMPLATES
    ensures Shows(w, 2, ReplyTo(chip, w, 2), Command(chip, w, 2))
  {
    hide Algorithm2, Composed, Uniformly;
    SolidUnique(Uniformly(w.width, w.height, 0), w.width, w.height, 0);
    PipelineMeaning(chip, w, Uniformly(w.width, w.height, 0));
  }

  lemma LearnFrame(chip: Chip, kind: Learner, w: World, n: nat)
    requires w.Valid(chip) && Fits(w.width, w.height, chip.cells)
    ensures Learn(chip, kind, w, n).inbox == w.inbox
  {
    hide Learn, Turns, Turn;
    LearningIsIteration(chip, kind, w, n);
  }

  lemma LearningShows(chip: Chip, w: World, alg: u8)
    requires w.Valid(chip) && 3 <= alg <= 5 && Fits(w.width, w.height, chip.cells)
    ensures |w.pics| == SLOTS && |w.templates| == TEMPLATES
    ensures Shows(w, alg, ReplyTo(chip, w, alg), Command(chip, w, alg))
  {
    hide Learn, Turns, LastRegisters;
    LearningAlgorithmMeaning(chip, LearnerOf(alg), w);
    LearnRegisters(chip, LearnerOf(alg), Prepared(chip, LearnerOf(alg), w), w.cnn.learnLoop);
    LearnFrame(chip, LearnerOf(alg), Prepared(chip, LearnerOf(alg), w), w.cnn.learnLoop);
  }

  /** Every command, known or not, computes `Replied`. */
  lemma CommandShows(chip: Chip, w: World, alg: u8)
    requires w.Valid(chip) && Named(w.cnn, alg) && Fits(w.width, w.height, chip.cells)
    ensures |w.pics| == SLOTS && |w.templates| == TEMPLATES
    ensures Shows(w, alg, ReplyTo(chip, w, alg), Command(chip, w, alg))
  {
    hide Algorithm1, Algorithm2, LearningAlgorithm;
    match alg
    case 1 => DirectShows(chip, w);
    case 2 => PipelineShows(chip, w);
    case 3 => LearningShows(chip, w, 3);
    case 4 => LearningShows(chip, w, 4);
    case 5 => LearningShows(chip, w, 5);
    case _ =>
  }

  /** For images of any size: a command request is that command on the state after its two bytes, and changes only what
      the command may write. */
  lemma CommandRequest(chip: Chip, w: World, alg: u8, rest: seq<u8>)
    requires w.Valid(chip) && Asks(w, [2, alg], rest) && Runnable(w, alg)
    ensures Servable(w) && Served(chip, w) == Command(chip, w.(inbox := rest), alg)
    ensures Within(alg, w.(inbox := rest), Served(chip, w), Acknowledged(alg))
    ensures Served(chip, w).hw.phase.Done? <==> StartsOf(alg, w.cnn.learnLoop) > 0 || w.hw.phase.Done?
  {
    hide Command, Within;
    assert Read(Read(w, 1), 1) == w.(inbox := rest);
    CommandFrame(chip, w.(inbox := rest), alg);
    CommandFinishes(chip, w.(inbox := rest), alg);
    AcknowledgedOnce(alg);
  }

  lemma CommandServed(chip: Chip, w: World, alg: u8, rest: seq<u8>)
    requires w.Valid(chip) && Asks(w, [2, alg], rest) && Runnable(w, alg) && Fits(w.width, w.height, chip.cells)
    ensures |w.pics| == SLOTS && |w.templates| == TEMPLATES
    ensures Servable(w)
    ensures Shows(w.(inbox := rest), alg, ReplyTo(chip, w, alg), Served(chip, w))
    ensures Served(chip, w).hw.phase.Done? <==> StartsOf(alg, w.cnn.learnLoop) > 0 || w.hw.phase.Done?
  {
    hide Served, Servable, Command, Replied, Shows, Within;
    CommandRequest(chip, w, alg, rest);
    CommandShows(chip, w.(inbox := rest), alg);
  }

  lemma ErrorsServed(chip: Chip, w: World, rest: seq<u8>)
    requires w.Valid(chip) && Asks(w, [4], rest) && w.width * w.height > 0
    ensures Servable(w)
    ensures var e := ScaledErrors(w.hw.errors, w.cnn.learnRate, w.width * w.height);
      var r := Served(chip, w);
      r == w.(errors := e, monitor := r.monitor, sent := w.sent + ErrorMessage(e), inbox := rest)
  {
    hide ScaledErrors, ErrorMessage;
    assert w.inbox[1..] == rest;
  }

  /** The 76 bytes of an error download: each number the host decodes is the register of that name, scaled. */
  lemma ErrorsDownloaded(chip: Chip, w: World, rest: seq<u8>, i: nat, j: nat)
    requires w.Valid(chip) && Asks(w, [4], rest) && w.width * w.height > 0 && i < 3 && j < 3
    ensures Servable(w) && w.sent <= Served(chip, w).sent
    ensures var m, rate, pixels := Served(chip, w).sent[|w.sent|..], w.cnn.learnRate, w.width * w.height;
      && |m| == 76
      && Word32At(m, 3 * i + j) == Scaled(ErrorAt(w.hw.errors, ErrorX(i, j)), rate, pixels)
      && Word32At(m, 9 + (3 * i + j)) == Scaled(ErrorAt(w.hw.errors, ErrorU(i, j)), rate, pixels)
      && Word32At(m, 18) == Scaled(ErrorAt(w.hw.errors, ErrorI), rate, pixels)
  {
    hide Served, Servable, ScaledErrors, ErrorMessage, Word32At, ErrorAt, Scaled;
    var e := ScaledErrors(w.hw.errors, w.cnn.learnRate, w.width * w.height);
    ErrorsServed(chip, w, rest);
    assert Served(chip, w).sent == w.sent + ErrorMessage(e);
    assert Served(chip, w).sent[|w.sent|..] == ErrorMessage(e);
    ErrorMessageDecodes(e, i, j);
    ScaledRecord(w.hw.errors, w.cnn.learnRate, w.width * w.height, i, j);
  }

  /** A request byte the firmware does not know is consumed, and nothing else happens. */
  lemma OtherServed(chip: Chip, w: World, request: u8, rest: seq<u8>)
    requires w.Valid(chip) && Asks(w, [request], rest) && request > 5
    ensures Servable(w) && Served(chip, w) == w.(inbox := rest)
  {
    assert w.inbox[1..] == rest;
  }

  lemma TemplateServed(chip: Chip, w: World, high: u8, low: u8, rest: seq<u8>)
    requires w.Valid(chip) && Asks(w, [5, high, low], rest) && BigEndian(high, low) < TEMPLATES
    ensures |w.templates| == TEMPLATES && Servable(w)
    ensures Served(chip, w) ==
      w.(sent := w.sent + TemplateMessage(w.templates[BigEndian(high, low)]), inbox := rest)
  {
    hide TemplateMessage;
    assert w.inbox[1..][2..] == rest;
  }

  lemma DownloadServed(chip: Chip, w: World, pos: u8, rest: seq<u8>)
    requires w.Valid(chip) && pos < SLOTS && Asks(w, [3, pos], rest)
    ensures Servable(w)
    ensures Served(chip, w) == w.(sent := w.sent + Encoded(Flatten(w.pics[pos])), inbox := rest)
  {
    hide Encoded;
    assert w.inbox[1..][1..] == rest;
  }

  /** The requests of a session after its header, from the command on and from the start. */
  function Closing(alg: u8, rest: seq<u8>): seq<u8> {
    [2, alg] + ([3, 1] + ([4] + rest))
  }

  function Requests(x: Picture, u: Picture, ideal: Picture, alg: u8, rest: seq<u8>): seq<u8> {
    Upload(1, x) + (Upload(0, u) + (Upload(2, ideal) + Closing(alg, rest)))
  }

  /** In a session only the last request asks for errors. */
  lemma OnlyTheLastMatters(ws: seq<World>)
    requires |ws| == 8 && (forall k :: 0 <= k < 7 ==> ws[k].inbox != [])
    requires (forall k :: 0 <= k < 6 ==> ws[k].inbox[0] != 4) && ws[6].inbox[0] == 4
    ensures AllOrderly(ws) <==> ws[6].hw.phase.Done?
  {
  }

  lemma SameInvariant(w: World, v: World)
    requires Invariant(w, w) && v.monitor == w.monitor && v.hw == w.hw && v.templates == w.templates
    ensures Invariant(v, v)
  {
  }

  lemma FirstByte(w: World, request: seq<u8>, rest: seq<u8>)
    requires request != [] && Asks(w, request, rest)
    ensures w.inbox != [] && w.inbox[0] == request[0]
  {
  }

  lemma RequestKinds(pos: u8, p: Picture, header: seq<u8>)
    ensures Upload(pos, p) != [] && Upload(pos, p)[0] == 1
    ensures Header(header) != [] && Header(header)[0] == 0
  {
    hide Encoded, Flatten;
  }

  /** A complete session of the host program: header, initial state, input, ideal image, any command, the state back and
      the errors back. For every processor, every image size that fits its RAMs, all images and every command byte, the
      bytes the host receives after the acknowledgements are exactly what the command computes from what it was sent;
      and the session is safe on the bus exactly when the command starts the processor. */
  lemma Session(chip: Chip, w: World, header: seq<u8>, x: Picture, u: Picture, ideal: Picture, alg: u8, rest: seq<u8>)
    returns (ws: seq<World>)
    requires w.Valid(chip) && |header| == 14
    requires var width, height := WordAt(header, 0), WordAt(header, 1);
      && Shaped(x, width, height) && Shaped(u, width, height) && Shaped(ideal, width, height)
      && width * height > 0 && Fits(width, height, chip.cells) && Named(HeaderConfig(header), alg)
    ensures IsRun(chip, ws) && |ws| == 8
    ensures ws[0] == w.(inbox := Header(header) + Requests(x, u, ideal, alg, rest))
    ensures ws[7].inbox == rest && |w.templates| == TEMPLATES
    ensures var cnn, width, height := HeaderConfig(header), WordAt(header, 0), WordAt(header, 1);
      var s := Setting(width, height, u, ideal, cnn.ts, cnn.iterations, cnn.learnRate);
      var reply := Replied(chip, alg, cnn, w.templates, s, x, w.hw.hidden, w.hw.errors);
      ws[7].sent == w.sent + [1] + Acknowledged(alg) + Encoded(Flatten(reply.x))
                    + ErrorMessage(ScaledErrors(reply.registers, cnn.learnRate, width * height))
    ensures Invariant(w, w) ==>
      ((forall k :: 0 <= k < 8 ==> ws[k].monitor.safe) <==> StartsOf(alg, HeaderConfig(header).learnLoop) > 0)
  {
    hide Served, Servable, Replied, Flatten, Encoded, WordAt, HeaderConfig, Upload, Header, BlackImages;
    hide ScaledErrors, ErrorMessage, Acknowledged, Invariant, AllOrderly;
    var w0 := w.(inbox := Header(header) + Requests(x, u, ideal, alg, rest));
    HeaderServed(chip, w0, header, Requests(x, u, ideal, alg, rest));
    var w1 := Served(chip, w0);
    UploadServed(chip, w1, 1, x, Upload(0, u) + (Upload(2, ideal) + Closing(alg, rest)));
    var w2 := Served(chip, w1);
    UploadServed(chip, w2, 0, u, Upload(2, ideal) + Closing(alg, rest));
    var w3 := Served(chip, w2);
    UploadServed(chip, w3, 2, ideal, Closing(alg, rest));
    var w4 := Served(chip, w3);
    CommandServed(chip, w4, alg, [3, 1] + ([4] + rest));
    var w5 := Served(chip, w4);
    DownloadServed(chip, w5, 1, [4] + rest);
    var w6 := Served(chip, w5);
    ErrorsServed(chip, w6, rest);
    ws := [w0, w1, w2, w3, w4, w5, w6, Served(chip, w6)];
    RequestKinds(1, x, header);
    RequestKinds(0, u, header);
    RequestKinds(2, ideal, header);
    FirstByte(w0, Header(header), Requests(x, u, ideal, alg, rest));
    FirstByte(w1, Upload(1, x), Upload(0, u) + (Upload(2, ideal) + Closing(alg, rest)));
    FirstByte(w2, Upload(0, u), Upload(2, ideal) + Closing(alg, rest));
    FirstByte(w3, Upload(2, ideal), Closing(alg, rest));
    OnlyTheLastMatters(ws);
    if Invariant(w, w) {
      SameInvariant(w, w0);
      SafeExactlyWhenOrderly(chip, ws);
    }
  }
}
