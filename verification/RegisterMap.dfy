/** The addresses that init_uart and init_gpio give the `mpu` pointers, over plain byte-addressed memory: why the device
    model may treat its registers as separate variables. */
module RegisterMap {
  import opened Words
  import opened Hardware
  import opened Bits

  datatype Register =
    | UartRx | UartTx | UartStatus | Command | Feedback
    | Coefficient(coeff: CoeffReg)
    | CacheIn(bank: Bank, pin: Pin)
    | CacheOut(bank: Bank)
    | ErrorRegister(error: ErrorReg)

  /** Grid indices are below 3. */
  predicate Exists(r: Register) {
    match r
    case Coefficient(CoeffA(i, j)) => InGrid(i, j)
    case Coefficient(CoeffB(i, j)) => InGrid(i, j)
    case ErrorRegister(ErrorU(i, j)) => InGrid(i, j)
    case ErrorRegister(ErrorX(i, j)) => InGrid(i, j)
    case _ => true
  }

  function BankNumber(bank: Bank): nat {
    match bank
    case BankU => 0
    case BankX => 1
    case BankIdeal => 2
  }

  /** The first base address of each group of peripherals. */
  function GroupBase(r: Register): nat {
    match r
    case Coefficient(_) => 0xB000_0000
    case CacheIn(_, _) => 0xA000_0000
    case CacheOut(_) => 0xA000_0000
    case ErrorRegister(_) => 0x9000_0000
    case _ => 0x8000_0000
  }

  /** The position of a register in its group; for the I/O module, its offset. */
  function Number(r: Register): nat {
    match r
    case UartRx => 0x0
    case UartTx => 0x4
    case UartStatus => 0x8
    case Command => 0x10
    case Feedback => 0x20
    case Coefficient(CoeffA(i, j)) => 3 * i + j
    case Coefficient(CoeffB(i, j)) => 9 + 3 * i + j
    case Coefficient(CoeffI) => 18
    case Coefficient(CoeffX) => 20
    case Coefficient(CoeffU) => 21
    case CacheIn(bank, DataIn) => 4 * BankNumber(bank)
    case CacheOut(bank) => 4 * BankNumber(bank) + 1
    case CacheIn(bank, Address) => 4 * BankNumber(bank) + 2
    case CacheIn(bank, WriteEnable) => 4 * BankNumber(bank) + 3
    case ErrorRegister(ErrorI) => 0
    case ErrorRegister(ErrorU(i, j)) => 2 + 3 * i + j
    case ErrorRegister(ErrorX(i, j)) => 11 + 3 * i + j
  }

  /** The peripheral a register belongs to: two registers for each base in a group, 0x1000 apart. */
  function Base(r: Register): nat {
    if GroupBase(r) == 0x8000_0000 then 0x8000_0000 else GroupBase(r) + Number(r) / 2 * 0x1000
  }

  function Offset(r: Register): nat {
    if GroupBase(r) == 0x8000_0000 then Number(r) else Number(r) % 2 * 0x08
  }

  function Pointer(r: Register): nat {
    BitOr(Base(r), Offset(r))
  }

  lemma PointerIs(r: Register)
    ensures Pointer(r) == BitOr(Base(r), Offset(r))
  {
  }

  /** The size of the pointed-to type in bytes. */
  function Size(r: Register): nat {
    match r
    case UartRx => 1
    case UartTx => 1
    case UartStatus => 1
    case Command => 4
    case Feedback => 4
    case Coefficient(_) => 2
    case CacheIn(_, pin) => if pin.WriteEnable? then 1 else 2
    case CacheOut(_) => 2
    case ErrorRegister(_) => 4
  }

  lemma GroupPage(r: Register) returns (page: nat)
    ensures GroupBase(r) == 0x1000 * page
  {
    page := match r
      case Coefficient(_) => 0xB_0000
      case CacheIn(_, _) => 0xA_0000
      case CacheOut(_) => 0xA_0000
      case ErrorRegister(_) => 0x9_0000
      case _ => 0x8_0000;
  }

  lemma BaseAligned(r: Register) returns (q: nat)
    ensures Base(r) == 0x1000 * q
  {
    hide Number, GroupBase;
    q := GroupPage(r);
    if GroupBase(r) != 0x8000_0000 {
      q := q + Number(r) / 2;
    }
  }

  lemma NumberBound(r: Register)
    requires Exists(r)
    ensures if GroupBase(r) == 0x8000_0000 then Number(r) <= 0x20 && Number(r) % 4 == 0 && Number(r) + Size(r) <= 0x100
            else Number(r) < 22 && Size(r) <= 4
  {
  }

  lemma OffsetBound(r: Register)
    requires Exists(r)
    ensures Offset(r) < 0x1000
  {
    hide Number;
    NumberBound(r);
  }

  /** The bases end in twelve zero bits, so the `|` of the source adds. */
  lemma PointerAdds(r: Register)
    requires Exists(r)
    ensures Pointer(r) == Base(r) + Offset(r)
  {
    hide *;
    Pow2Values();
    var q := BaseAligned(r);
    OffsetBound(r);
    OrAdds(q, Offset(r), 12);
    PointerIs(r);
  }

  lemma GridUnique(c: CoeffReg, d: CoeffReg)
    requires Exists(Coefficient(c)) && Exists(Coefficient(d)) && Number(Coefficient(c)) == Number(Coefficient(d))
    ensures c == d
  {
  }

  lemma NumberUnique(r: Register, q: Register)
    requires Exists(r) && Exists(q) && GroupBase(r) == GroupBase(q) && Number(r) == Number(q)
    ensures r == q
  {
    if r.Coefficient? {
      GridUnique(r.coeff, q.coeff);
    }
  }

  lemma GroupsApart(r: Register, q: Register)
    ensures GroupBase(r) == GroupBase(q) || GroupBase(r) + 0x1000_0000 <= GroupBase(q)
            || GroupBase(q) + 0x1000_0000 <= GroupBase(r)
  {
  }

  lemma IoApart(r: Register, q: Register)
    requires GroupBase(r) == GroupBase(q) == 0x8000_0000 && Number(r) != Number(q)
    ensures Number(r) + Size(r) <= Number(q) || Number(q) + Size(q) <= Number(r)
  {
  }

  /** No two registers overlap. */
  lemma RegistersDisjoint(r: Register, q: Register)
    requires Exists(r) && Exists(q) && r != q
    ensures Pointer(r) + Size(r) <= Pointer(q) || Pointer(q) + Size(q) <= Pointer(r)
  {
    hide Number, Exists, Size, BitOr, GroupBase, Pointer;
    PointerAdds(r);
    PointerAdds(q);
    NumberBound(r);
    NumberBound(q);
    GroupsApart(r, q);
    if GroupBase(r) == GroupBase(q) {
      if Number(r) == Number(q) {
        NumberUnique(r, q);
      } else if GroupBase(r) == 0x8000_0000 {
        IoApart(r, q);
      }
    }
  }

  // ------------------------------------------------------------------------------------------------------------------
  // The addresses themselves
  // ------------------------------------------------------------------------------------------------------------------

  /** The addresses of the four grids, row by row. */
  function TemplateA(): (table: seq<nat>)
    ensures |table| == 9
  {
    [0xB000_0000, 0xB000_0008, 0xB000_1000, 0xB000_1008, 0xB000_2000,
     0xB000_2008, 0xB000_3000, 0xB000_3008, 0xB000_4000]
  }

  function TemplateB(): (table: seq<nat>)
    ensures |table| == 9
  {
    [0xB000_4008, 0xB000_5000, 0xB000_5008, 0xB000_6000, 0xB000_6008,
     0xB000_7000, 0xB000_7008, 0xB000_8000, 0xB000_8008]
  }

  function ErrorsU(): (table: seq<nat>)
    ensures |table| == 9
  {
    [0x9000_1000, 0x9000_1008, 0x9000_2000, 0x9000_2008, 0x9000_3000,
     0x9000_3008, 0x9000_4000, 0x9000_4008, 0x9000_5000]
  }

  function ErrorsX(): (table: seq<nat>)
    ensures |table| == 9
  {
    [0x9000_5008, 0x9000_6000, 0x9000_6008, 0x9000_7000, 0x9000_7008,
     0x9000_8000, 0x9000_8008, 0x9000_9000, 0x9000_9008]
  }

  /** The address of every register, written out. */
  function Listed(r: Register): nat
    requires Exists(r)
  {
    match r
    case UartRx => 0x8000_0000
    case UartTx => 0x8000_0004
    case UartStatus => 0x8000_0008
    case Command => 0x8000_0010
    case Feedback => 0x8000_0020
    case Coefficient(CoeffA(i, j)) => TemplateA()[3 * i + j]
    case Coefficient(CoeffB(i, j)) => TemplateB()[3 * i + j]
    case Coefficient(CoeffI) => 0xB000_9000
    case Coefficient(CoeffX) => 0xB000_A000
    case Coefficient(CoeffU) => 0xB000_A008
    case CacheIn(BankU, DataIn) => 0xA000_0000
    case CacheOut(BankU) => 0xA000_0008
    case CacheIn(BankU, Address) => 0xA000_1000
    case CacheIn(BankU, WriteEnable) => 0xA000_1008
    case CacheIn(BankX, DataIn) => 0xA000_2000
    case CacheOut(BankX) => 0xA000_2008
    case CacheIn(BankX, Address) => 0xA000_3000
    case CacheIn(BankX, WriteEnable) => 0xA000_3008
    case CacheIn(BankIdeal, DataIn) => 0xA000_4000
    case CacheOut(BankIdeal) => 0xA000_4008
    case CacheIn(BankIdeal, Address) => 0xA000_5000
    case CacheIn(BankIdeal, WriteEnable) => 0xA000_5008
    case ErrorRegister(ErrorI) => 0x9000_0000
    case ErrorRegister(ErrorU(i, j)) => ErrorsU()[3 * i + j]
    case ErrorRegister(ErrorX(i, j)) => ErrorsX()[3 * i + j]
  }

  /** Two registers for each base: in every grid the addresses run on from those of the registers before it. */
  lemma InTables(n: nat)
    requires n < 9
    ensures TemplateA()[n] == 0xB000_0000 + n / 2 * 0x1000 + n % 2 * 0x08
    ensures TemplateB()[n] == 0xB000_0000 + (9 + n) / 2 * 0x1000 + (9 + n) % 2 * 0x08
    ensures ErrorsU()[n] == 0x9000_0000 + (2 + n) / 2 * 0x1000 + (2 + n) % 2 * 0x08
    ensures ErrorsX()[n] == 0x9000_0000 + (11 + n) / 2 * 0x1000 + (11 + n) % 2 * 0x08
  {
    if {
      case n == 0 =>
      case n == 1 =>
      case n == 2 =>
      case n == 3 =>
      case n == 4 =>
      case n == 5 =>
      case n == 6 =>
      case n == 7 =>
      case n == 8 =>
    }
  }

  lemma CoefficientListed(c: CoeffReg)
    requires Exists(Coefficient(c))
    ensures Base(Coefficient(c)) + Offset(Coefficient(c)) == Listed(Coefficient(c))
  {
    hide TemplateA, TemplateB;
    if c.CoeffA? || c.CoeffB? {
      InTables(3 * c.i + c.j);
    }
  }

  lemma ErrorListed(e: ErrorReg)
    requires Exists(ErrorRegister(e))
    ensures Base(ErrorRegister(e)) + Offset(ErrorRegister(e)) == Listed(ErrorRegister(e))
  {
    hide ErrorsU, ErrorsX;
    if e.ErrorU? || e.ErrorX? {
      InTables(3 * e.i + e.j);
    }
  }

  lemma OthersListed(r: Register)
    requires !r.Coefficient? && !r.ErrorRegister?
    ensures Base(r) + Offset(r) == Listed(r)
  {
  }

  /** Every pointer of init_uart and init_gpio has the address of its register. */
  lemma PointerListed(r: Register)
    requires Exists(r)
    ensures Pointer(r) == Listed(r)
  {
    hide Pointer, Base, Offset, Listed;
    PointerAdds(r);
    match r
    case Coefficient(c) => CoefficientListed(c);
    case ErrorRegister(e) => ErrorListed(e);
    case _ => OthersListed(r);
  }

  // ------------------------------------------------------------------------------------------------------------------
  // Stores and loads
  // ------------------------------------------------------------------------------------------------------------------

  /** n bytes of a value, low byte first. */
  function Bytes(v: nat, n: nat): (b: seq<u8>)
    ensures |b| == n
  {
    if n == 0 then [] else [v % 0x100] + Bytes(v / 0x100, n - 1)
  }

  /** Memory with some bytes written at an address. */
  function Poke(memory: map<nat, u8>, address: nat, bytes: seq<u8>): map<nat, u8>
    decreases |bytes|
  {
    if bytes == [] then memory else Poke(memory[address := bytes[0]], address + 1, bytes[1..])
  }

  function Peek(memory: map<nat, u8>, address: nat, n: nat): nat
    decreases n
  {
    if n == 0 then 0
    else (if address in memory then memory[address] else 0) + 0x100 * Peek(memory, address + 1, n - 1)
  }

  datatype Access = Store(register: Register, value: nat)

  /** A sequence of stores through the pointers. */
  function After(memory: map<nat, u8>, stores: seq<Access>): map<nat, u8> {
    if stores == [] then memory else
      var last := stores[|stores| - 1];
      Poke(After(memory, stores[..|stores| - 1]), Pointer(last.register), Bytes(last.value, Size(last.register)))
  }

  /** The last value stored through one pointer, or what was there before. */
  function Last(stores: seq<Access>, r: Register, initial: nat): nat {
    if stores == [] then initial
    else if stores[|stores| - 1].register == r then stores[|stores| - 1].value
    else Last(stores[..|stores| - 1], r, initial)
  }

  function Limit(n: nat): nat {
    if n == 0 then 1 else 0x100 * Limit(n - 1)
  }

  lemma {:induction false} PokeElsewhere(memory: map<nat, u8>, address: nat, bytes: seq<u8>, a: nat)
    requires a < address || address + |bytes| <= a
    ensures (a in Poke(memory, address, bytes) <==> a in memory)
    ensures a in memory ==> Poke(memory, address, bytes)[a] == memory[a]
    decreases |bytes|
  {
    if bytes != [] {
      PokeElsewhere(memory[address := bytes[0]], address + 1, bytes[1..], a);
    }
  }

  lemma {:induction false} PeekElsewhere(memory: map<nat, u8>, address: nat, bytes: seq<u8>, a: nat, n: nat)
    requires a + n <= address || address + |bytes| <= a
    ensures Peek(Poke(memory, address, bytes), a, n) == Peek(memory, a, n)
    decreases n
  {
    if n > 0 {
      PokeElsewhere(memory, address, bytes, a);
      PeekElsewhere(memory, address, bytes, a + 1, n - 1);
    }
  }

  lemma {:induction false} PeekPoke(memory: map<nat, u8>, address: nat, v: nat, n: nat)
    requires v < Limit(n)
    ensures Peek(Poke(memory, address, Bytes(v, n)), address, n) == v
    decreases n
  {
    if n > 0 {
      var bytes := Bytes(v, n);
      assert bytes[1..] == Bytes(v / 0x100, n - 1);
      var m := memory[address := bytes[0]];
      PeekPoke(m, address + 1, v / 0x100, n - 1);
      PokeElsewhere(m, address + 1, bytes[1..], address);
    }
  }

  /** Over any sequence of stores through the pointers, reading a register gives the last value stored through its own
      pointer: stores through the other pointers never show. */
  lemma {:induction false} RegistersIndependent(memory: map<nat, u8>, stores: seq<Access>, r: Register)
    requires Exists(r)
    requires forall k :: 0 <= k < |stores| ==>
      Exists(stores[k].register) && stores[k].value < Limit(Size(stores[k].register))
    ensures Peek(After(memory, stores), Pointer(r), Size(r)) == Last(stores, r, Peek(memory, Pointer(r), Size(r)))
  {
    hide Pointer, Size, Bytes, Exists;
    if stores != [] {
      var init, last := stores[..|stores| - 1], stores[|stores| - 1];
      RegistersIndependent(memory, init, r);
      if last.register == r {
        PeekPoke(After(memory, init), Pointer(r), last.value, Size(r));
      } else {
        RegistersDisjoint(r, last.register);
        PeekElsewhere(After(memory, init), Pointer(last.register), Bytes(last.value, Size(last.register)),
                      Pointer(r), Size(r));
      }
    }
  }
}
