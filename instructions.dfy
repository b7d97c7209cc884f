/** The 35 instructions of the interpreter and the decoding of a fetched
    16-bit word into one of them. The source dispatches through tables of
    member functions indexed by nibbles (src/chip8.cpp:42-93,
    121-140); here that mapping is the function `Decode`, with the same masks
    except in family F, which `Decode` dispatches on the low byte. */
module Instructions {
  import opened Word

  /** One decoded instruction; constructor names are the mnemonics of
      section 3.1 of Cowgod's Chip-8 Technical Reference. */
  datatype Instr =
    | Nop                           // OP_NULL: an empty table slot
    | Cls                           // 00E0
    | Ret                           // 00EE
    | Jp(nnn: u12)                  // 1nnn
    | Call(nnn: u12)                // 2nnn
    | SeImm(x: nibble, kk: u8)      // 3xkk
    | SneImm(x: nibble, kk: u8)     // 4xkk
    | SeReg(x: nibble, y: nibble)   // 5xy0
    | LdImm(x: nibble, kk: u8)      // 6xkk
    | AddImm(x: nibble, kk: u8)     // 7xkk
    | LdReg(x: nibble, y: nibble)   // 8xy0
    | Or(x: nibble, y: nibble)      // 8xy1
    | And(x: nibble, y: nibble)     // 8xy2
    | Xor(x: nibble, y: nibble)     // 8xy3
    | AddReg(x: nibble, y: nibble)  // 8xy4
    | Sub(x: nibble, y: nibble)     // 8xy5
    | Shr(x: nibble, y: nibble)     // 8xy6 (y is decoded but unused)
    | Subn(x: nibble, y: nibble)    // 8xy7
    | Shl(x: nibble, y: nibble)     // 8xyE (y is decoded but unused)
    | SneReg(x: nibble, y: nibble)  // 9xy0
    | LdI(nnn: u12)                 // Annn
    | JpV0(nnn: u12)                // Bnnn
    | Rnd(x: nibble, kk: u8)        // Cxkk
    | Drw(x: nibble, y: nibble, n: nibble) // Dxyn
    | Skp(x: nibble)                // Ex9E
    | Sknp(x: nibble)               // ExA1
    | LdVxDt(x: nibble)             // Fx07
    | LdKey(x: nibble)              // Fx0A
    | LdDtVx(x: nibble)             // Fx15
    | LdStVx(x: nibble)             // Fx18
    | AddI(x: nibble)               // Fx1E
    | LdFont(x: nibble)             // Fx29
    | Bcd(x: nibble)                // Fx33
    | StoreRegs(x: nibble)          // Fx55
    | LoadRegs(x: nibble)           // Fx65

  // The instructions by the table the source dispatches them through.

  /** Families 0-5, 9, A and B: control flow, the screen clear and I. */
  predicate InFlow(i: Instr) {
    i.Nop? || i.Cls? || i.Ret? || i.Jp? || i.Call? || i.SeImm? || i.SneImm? ||
    i.SeReg? || i.SneReg? || i.LdI? || i.JpV0?
  }

  /** Families 6, 7 and C: an operand in the low byte. */
  predicate InImmediate(i: Instr) {
    i.LdImm? || i.AddImm? || i.Rnd?
  }

  /** The handlers of `table8`. */
  predicate InTable8(i: Instr) {
    i.LdReg? || i.Or? || i.And? || i.Xor? || i.AddReg? || i.Sub? || i.Shr? || i.Subn? || i.Shl?
  }

  /** Family D and the handlers of `tableE`. */
  predicate InDrawKeys(i: Instr) {
    i.Drw? || i.Skp? || i.Sknp?
  }

  /** The handlers of `tableF`. */
  predicate InTableF(i: Instr) {
    i.LdVxDt? || i.LdKey? || i.LdDtVx? || i.LdStVx? || i.AddI? || i.LdFont? ||
    i.Bcd? || i.StoreRegs? || i.LoadRegs?
  }

  // The fields of an instruction word, as the handlers mask them out.
  function Family(w: u16): nibble { w / 0x1000 }          // (opcode & 0xF000) >> 12
  function X(w: u16): nibble { (w / 0x100) % 0x10 }       // (opcode & 0x0F00) >> 8
  function Y(w: u16): nibble { (w / 0x10) % 0x10 }        // (opcode & 0x00F0) >> 4
  function N(w: u16): nibble { w % 0x10 }                 // opcode & 0x000F
  function KK(w: u16): u8 { w % 0x100 }                   // opcode & 0x00FF
  function NNN(w: u16): u12 { w % 0x1000 }                // opcode & 0x0FFF

  /** The word with nibbles f, x, y, n from the most significant down. */
  function Word4(f: nibble, x: nibble, y: nibble, n: nibble): (w: u16)
    ensures Family(w) == f && X(w) == x && Y(w) == y && N(w) == n
  {
    NibblesOfWord(f, x, y, n);
    f * 0x1000 + x * 0x100 + y * 0x10 + n
  }

  /** Each of the four masks of the handlers recovers its own nibble. */
  lemma NibblesOfWord(f: nibble, x: nibble, y: nibble, n: nibble)
    ensures var w := f * 0x1000 + x * 0x100 + y * 0x10 + n;
      w / 0x1000 == f && (w / 0x100) % 0x10 == x && (w / 0x10) % 0x10 == y && w % 0x10 == n
  {
    var w := f * 0x1000 + x * 0x100 + y * 0x10 + n;
    var fx, fxy := f * 0x10 + x, (f * 0x10 + x) * 0x10 + y;
    assert w == f * 0x1000 + (x * 0x100 + y * 0x10 + n);
    assert w / 0x1000 == f;
    assert w == fx * 0x100 + (y * 0x10 + n);
    assert w / 0x100 == fx;
    assert fx % 0x10 == x;
    assert w == fxy * 0x10 + n;
    assert w / 0x10 == fxy && w % 0x10 == n;
    assert fxy % 0x10 == y;
  }

  /** Dispatch of family F on the low byte (tableF is filled by low byte,
      src/chip8.cpp:85-93). Codes above 0x65 and unlisted codes are no-ops. */
  function DecodeF(x: nibble, kk: u8): Instr {
    match kk
    case 0x07 => LdVxDt(x)
    case 0x0A => LdKey(x)
    case 0x15 => LdDtVx(x)
    case 0x18 => LdStVx(x)
    case 0x1E => AddI(x)
    case 0x29 => LdFont(x)
    case 0x33 => Bcd(x)
    case 0x55 => StoreRegs(x)
    case 0x65 => LoadRegs(x)
    case _ => Nop
  }

  /** Family 8: table8 has entries 0x0-0xE; 8-D are OP_NULL and low nibble F
      lies past the table's 15 entries, taken here as a no-op. */
  function Decode8(x: nibble, y: nibble, n: nibble): Instr {
    match n
    case 0x0 => LdReg(x, y)
    case 0x1 => Or(x, y)
    case 0x2 => And(x, y)
    case 0x3 => Xor(x, y)
    case 0x4 => AddReg(x, y)
    case 0x5 => Sub(x, y)
    case 0x6 => Shr(x, y)
    case 0x7 => Subn(x, y)
    case 0xE => Shl(x, y)
    case _ => Nop
  }

  /** How the dispatch tables select a handler from the four nibbles of the
      word: `f` indexes `table`, and the handler takes its operands from
      `x`, `y`, `n`, the low byte `y n` and the address `x y n`. */
  function DecodeFields(f: nibble, x: nibble, y: nibble, n: nibble): Instr {
    var kk := y * 0x10 + n;
    var nnn := x * 0x100 + kk;
    match f
    case 0x0 => if n == 0x0 then Cls else if n == 0xE then Ret else Nop
    case 0x1 => Jp(nnn)
    case 0x2 => Call(nnn)
    case 0x3 => SeImm(x, kk)
    case 0x4 => SneImm(x, kk)
    case 0x5 => SeReg(x, y)
    case 0x6 => LdImm(x, kk)
    case 0x7 => AddImm(x, kk)
    case 0x8 => Decode8(x, y, n)
    case 0x9 => SneReg(x, y)
    case 0xA => LdI(nnn)
    case 0xB => JpV0(nnn)
    case 0xC => Rnd(x, kk)
    case 0xD => Drw(x, y, n)
    case 0xE => if n == 0x1 then Sknp(x) else if n == 0xE then Skp(x) else Nop
    case _ => DecodeF(x, kk)
  }

  /** The low byte and the address field are made of the lower nibbles. */
  lemma FieldsOfWord(w: u16)
    ensures KK(w) == Y(w) * 0x10 + N(w)
    ensures NNN(w) == X(w) * 0x100 + KK(w)
  {
  }

  /** Decodes a fetched word exactly as the dispatch tables do, except that
      family F is dispatched on the low byte (see `DecodeAsWritten`). */
  function Decode(w: u16): (r: Instr)
    ensures Family(w) == 0xD <==> r.Drw?
    ensures r.Drw? ==> r == Drw(X(w), Y(w), N(w))
  {
    FieldsOfWord(w);
    DecodeFields(Family(w), X(w), Y(w), N(w))
  }

  /** Which masks select which handler, and where the operands come from. */
  lemma DecodeMasks(w: u16)
    // Family 0 looks at the low nibble only.
    ensures Decode(w) == Cls <==> Family(w) == 0x0 && N(w) == 0x0
    ensures Decode(w) == Ret <==> Family(w) == 0x0 && N(w) == 0xE
    // 5xy? and 9xy? ignore the low nibble.
    ensures Decode(w).SeReg? <==> Family(w) == 0x5
    ensures Decode(w).SneReg? <==> Family(w) == 0x9
    // Family E looks at the low nibble only: Ex?E is Ex9E and Ex?1 is ExA1.
    ensures Decode(w).Skp? <==> Family(w) == 0xE && N(w) == 0xE
    ensures Decode(w).Sknp? <==> Family(w) == 0xE && N(w) == 0x1
    ensures (Decode(w).Skp? || Decode(w).Sknp?) ==> Decode(w).x == X(w)
    // Every other low nibble of families 0 and E reaches OP_NULL.
    ensures Family(w) == 0x0 && N(w) != 0x0 && N(w) != 0xE ==> Decode(w) == Nop
    ensures Family(w) == 0xE && N(w) != 0x1 && N(w) != 0xE ==> Decode(w) == Nop
    // The empty slots of table8 and the missing slot 0xF of table0, table8, tableE.
    ensures Family(w) == 0x8 && 0x8 <= N(w) <= 0xD ==> Decode(w) == Nop
    ensures Family(w) in {0x0, 0x8, 0xE} && N(w) == 0xF ==> Decode(w) == Nop
    // Family F: nothing above 0x65 is an instruction.
    ensures Family(w) == 0xF && KK(w) > 0x65 ==> Decode(w) == Nop
    ensures Family(w) == 0xF && KK(w) !in {0x07, 0x0A, 0x15, 0x18, 0x1E, 0x29, 0x33, 0x55, 0x65} ==>
      Decode(w) == Nop
    // Operands come from the masked fields of the word.
    ensures var i := Decode(w); (i.SeReg? || i.SneReg? || i.Drw?) ==> i.x == X(w) && i.y == Y(w)
    ensures Decode(w).Drw? <==> Family(w) == 0xD
    ensures Decode(w).Drw? ==> Decode(w).n == N(w)
    ensures var i := Decode(w); (i.Jp? || i.Call? || i.LdI? || i.JpV0?) ==> i.nnn == NNN(w)
    ensures var i := Decode(w); (i.SeImm? || i.SneImm? || i.LdImm? || i.AddImm? || i.Rnd?) ==>
      i.x == X(w) && i.kk == KK(w)
  {
    FieldsOfWord(w);
  }

  /** Families 1-4, 6, 7 and A-C each reach one handler whatever their low
      bits, and the table8 and tableF handlers take their registers from the
      masked fields. */
  lemma DecodeFamilies(w: u16)
    ensures Decode(w).Jp? <==> Family(w) == 0x1
    ensures Decode(w).Call? <==> Family(w) == 0x2
    ensures Decode(w).SeImm? <==> Family(w) == 0x3
    ensures Decode(w).SneImm? <==> Family(w) == 0x4
    ensures Decode(w).LdImm? <==> Family(w) == 0x6
    ensures Decode(w).AddImm? <==> Family(w) == 0x7
    ensures Decode(w).LdI? <==> Family(w) == 0xA
    ensures Decode(w).JpV0? <==> Family(w) == 0xB
    ensures Decode(w).Rnd? <==> Family(w) == 0xC
    ensures InTable8(Decode(w)) ==> Decode(w).x == X(w) && Decode(w).y == Y(w)
    ensures InTableF(Decode(w)) ==> Decode(w).x == X(w)
  {
  }

  /** The nibbles of the canonical word of an instruction: the opcode
      pattern of the reference with its fields filled in. */
  datatype Nibbles = Nibbles(f: nibble, x: nibble, y: nibble, n: nibble)

  function ByteNibbles(f: nibble, x: nibble, kk: u8): (e: Nibbles)
    ensures e.f == f && e.x == x && e.y * 0x10 + e.n == kk
  {
    Nibbles(f, x, kk / 0x10, kk % 0x10)
  }

  function AddressNibbles(f: nibble, nnn: u12): (e: Nibbles)
    ensures e.f == f && e.x * 0x100 + e.y * 0x10 + e.n == nnn
  {
    Nibbles(f, nnn / 0x100, (nnn / 0x10) % 0x10, nnn % 0x10)
  }

  function Fields(i: Instr): Nibbles {
    match i
    case Nop => Nibbles(0x0, 0x0, 0x0, 0x1)
    case Cls => Nibbles(0x0, 0x0, 0xE, 0x0)
    case Ret => Nibbles(0x0, 0x0, 0xE, 0xE)
    case Jp(nnn) => AddressNibbles(0x1, nnn)
    case Call(nnn) => AddressNibbles(0x2, nnn)
    case SeImm(x, kk) => ByteNibbles(0x3, x, kk)
    case SneImm(x, kk) => ByteNibbles(0x4, x, kk)
    case SeReg(x, y) => Nibbles(0x5, x, y, 0x0)
    case LdImm(x, kk) => ByteNibbles(0x6, x, kk)
    case AddImm(x, kk) => ByteNibbles(0x7, x, kk)
    case LdReg(x, y) => Nibbles(0x8, x, y, 0x0)
    case Or(x, y) => Nibbles(0x8, x, y, 0x1)
    case And(x, y) => Nibbles(0x8, x, y, 0x2)
    case Xor(x, y) => Nibbles(0x8, x, y, 0x3)
    case AddReg(x, y) => Nibbles(0x8, x, y, 0x4)
    case Sub(x, y) => Nibbles(0x8, x, y, 0x5)
    case Shr(x, y) => Nibbles(0x8, x, y, 0x6)
    case Subn(x, y) => Nibbles(0x8, x, y, 0x7)
    case Shl(x, y) => Nibbles(0x8, x, y, 0xE)
    case SneReg(x, y) => Nibbles(0x9, x, y, 0x0)
    case LdI(nnn) => AddressNibbles(0xA, nnn)
    case JpV0(nnn) => AddressNibbles(0xB, nnn)
    case Rnd(x, kk) => ByteNibbles(0xC, x, kk)
    case Drw(x, y, n) => Nibbles(0xD, x, y, n)
    case Skp(x) => Nibbles(0xE, x, 0x9, 0xE)
    case Sknp(x) => Nibbles(0xE, x, 0xA, 0x1)
    case LdVxDt(x) => Nibbles(0xF, x, 0x0, 0x7)
    case LdKey(x) => Nibbles(0xF, x, 0x0, 0xA)
    case LdDtVx(x) => Nibbles(0xF, x, 0x1, 0x5)
    case LdStVx(x) => Nibbles(0xF, x, 0x1, 0x8)
    case AddI(x) => Nibbles(0xF, x, 0x1, 0xE)
    case LdFont(x) => Nibbles(0xF, x, 0x2, 0x9)
    case Bcd(x) => Nibbles(0xF, x, 0x3, 0x3)
    case StoreRegs(x) => Nibbles(0xF, x, 0x5, 0x5)
    case LoadRegs(x) => Nibbles(0xF, x, 0x6, 0x5)
  }

  /** The canonical word of an instruction. */
  function Encode(i: Instr): u16 {
    var e := Fields(i);
    Word4(e.f, e.x, e.y, e.n)
  }

  /** The dispatch on nibbles selects exactly the instruction whose
      pattern filled those nibbles. */
  lemma DecodeFieldsOfFields(i: Instr)
    ensures var e := Fields(i); DecodeFields(e.f, e.x, e.y, e.n) == i
  {
  }

  /** Decoding inverts encoding: every instruction has a word that the
      dispatch tables send to exactly that handler with exactly those fields. */
  lemma DecodeEncode(i: Instr)
    ensures Decode(Encode(i)) == i
  {
    DecodeFieldsOfFields(i);
  }

  /** A word is made of its four masked nibbles. */
  lemma WordOfFields(w: u16)
    ensures w == Word4(Family(w), X(w), Y(w), N(w))
  {
    var hi, lo := w / 0x100, w % 0x100;
    assert w == hi * 0x100 + lo;
    assert hi == Family(w) * 0x10 + X(w);
    assert lo == Y(w) * 0x10 + N(w);
  }

  /** Division by 16 and by 256 of a value written as quotient and remainder. */
  lemma Split16(q: nat, r: nat)
    requires r < 0x10
    ensures (q * 0x10 + r) / 0x10 == q && (q * 0x10 + r) % 0x10 == r
  {
  }

  lemma Split256(q: nat, r: nat)
    requires r < 0x100
    ensures (q * 0x100 + r) / 0x100 == q
  {
  }

  /** The address and byte fields of a word split back into its nibbles. */
  lemma OperandNibbles(w: u16, f: nibble)
    ensures AddressNibbles(f, NNN(w)) == Nibbles(f, X(w), Y(w), N(w))
    ensures ByteNibbles(f, X(w), KK(w)) == Nibbles(f, X(w), Y(w), N(w))
  {
    var x, y, n: nat := X(w), Y(w), N(w);
    var nnn, kk: nat := NNN(w), KK(w);
    FieldsOfWord(w);
    Split16(y, n);
    assert kk / 0x10 == y && kk % 0x10 == n;
    assert nnn == (x * 0x10 + y) * 0x10 + n;
    Split16(x * 0x10 + y, n);
    Split16(x, y);
    assert nnn / 0x10 == x * 0x10 + y && nnn % 0x10 == n;
    Split256(x, kk);
    assert nnn / 0x100 == x;
  }

  /** A word decodes to an instruction whose fields are its own nibbles
      exactly when it is that instruction's canonical word. */
  lemma CanonicalWord(w: u16)
    requires Fields(Decode(w)) == Nibbles(Family(w), X(w), Y(w), N(w))
    ensures Encode(Decode(w)) == w
  {
    WordOfFields(w);
  }

  /** Every word that reaches a filled slot, in every family whose handler
      reads all of its nibbles, is the canonical word of what it decodes to. */
  lemma DecodeFilledSlots(w: u16)
    ensures Family(w) in {0x1, 0x2, 0x3, 0x4, 0x6, 0x7, 0xA, 0xB, 0xC, 0xD} ==> Encode(Decode(w)) == w
    ensures Family(w) == 0x8 && (N(w) <= 0x7 || N(w) == 0xE) ==> Encode(Decode(w)) == w
    ensures Family(w) == 0x8 && N(w) == 0xE ==> Decode(w) == Shl(X(w), Y(w))
    ensures Family(w) == 0xF && KK(w) in {0x07, 0x0A, 0x15, 0x18, 0x1E, 0x29, 0x33, 0x55, 0x65} ==>
      Decode(w) != Nop && Encode(Decode(w)) == w
  {
    var f := Family(w);
    FieldsOfWord(w);
    OperandNibbles(w, f);
    if f in {0x1, 0x2, 0x3, 0x4, 0x6, 0x7, 0xA, 0xB, 0xC, 0xD} {
      CanonicalWord(w);
    } else if f == 0x8 && (N(w) <= 0x7 || N(w) == 0xE) {
      CanonicalWord(w);
    } else if f == 0xF && KK(w) in {0x07, 0x0A, 0x15, 0x18, 0x1E, 0x29, 0x33, 0x55, 0x65} {
      FamilyFSlot(w);
      CanonicalWord(w);
    }
  }

  /** In family F the low byte of a listed code fixes its two low nibbles. */
  lemma FamilyFSlot(w: u16)
    requires Family(w) == 0xF && KK(w) in {0x07, 0x0A, 0x15, 0x18, 0x1E, 0x29, 0x33, 0x55, 0x65}
    ensures Decode(w) != Nop
    ensures Fields(Decode(w)) == Nibbles(Family(w), X(w), Y(w), N(w))
  {
    FieldsOfWord(w);
    var y, n: int := Y(w), N(w);
    assert KK(w) == y * 0x10 + n;
    assert y == KK(w) / 0x10 && n == KK(w) % 0x10;
  }

  /** Family F as the source dispatches it: `tableF[opcode & 0x000F]`
      (src/chip8.cpp:140), so the slot is chosen by the low nibble alone and
      only slots 0x07 and 0x0A of the table are ever reached. */
  function DecodeAsWritten(w: u16): (r: Instr)
    ensures Family(w) != 0xF ==> r == Decode(w)
    ensures Family(w) == 0xF ==> r == LdVxDt(X(w)) || r == LdKey(X(w)) || r == Nop
  {
    if Family(w) == 0xF then
      match N(w)
      case 0x7 => LdVxDt(X(w))
      case 0xA => LdKey(X(w))
      case _ => Nop
    else Decode(w)
  }

  /** As written, Fx15, Fx18, Fx1E, Fx29, Fx33, Fx55 and Fx65 all reach the
      empty handler, while `Decode` reaches each of them. */
  lemma FamilyFAsWrittenUnreachable(i: Instr)
    requires i.LdDtVx? || i.LdStVx? || i.AddI? || i.LdFont? || i.Bcd? || i.StoreRegs? || i.LoadRegs?
    ensures DecodeAsWritten(Encode(i)) == Nop
    ensures Decode(Encode(i)) == i
  {
    DecodeEncode(i);
  }

  /** As written, any Fxn7 reads the delay timer (0xF017 is an example);
      with the low-byte dispatch it is a no-op. */
  lemma FamilyFAsWrittenAliases()
    ensures DecodeAsWritten(0xF017) == LdVxDt(0) && Decode(0xF017) == Nop
  {
  }
}
