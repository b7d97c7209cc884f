/** The interpreter's state as a value and the effect of each instruction,
    of one `Cycle` (src/chip8.cpp:113-132), of construction
    (src/chip8.cpp:31-38) and of the copy loop of `LoadROM`
    (src/chip8.cpp:105-107). The imperative `Machine.Chip8` class is proved
    to implement these functions. Most indices the source leaves unchecked
    are checked here, and a failing check aborts the instruction with a
    status before it changes anything. The two exceptions report nothing: a
    Dxyn pixel index past the framebuffer is skipped (see `Display.DrawSteps`),
    and slot F of table0, table8 and tableE decodes as `Nop`. */
module Semantics {
  import opened Word
  import opened Instructions
  import opened Display

  const MEMORY_SIZE: nat := 4096
  const REGISTER_COUNT: nat := 16
  const STACK_DEPTH: nat := 16
  const KEY_COUNT: nat := 16
  const START_ADDRESS: nat := 0x200
  const FONTSET_START_ADDRESS: nat := 0x50
  const FONTSET_SIZE: nat := 80
  /** The flag register VF. */
  const VF: nibble := 0xF

  /** The 16 glyphs 0-F, five rows of four pixels each (src/chip8.cpp:13-30). */
  const FONTSET: seq<u8> := [
    0xF0, 0x90, 0x90, 0x90, 0xF0, // 0
    0x20, 0x60, 0x20, 0x20, 0x70, // 1
    0xF0, 0x10, 0xF0, 0x80, 0xF0, // 2
    0xF0, 0x10, 0xF0, 0x10, 0xF0, // 3
    0x90, 0x90, 0xF0, 0x10, 0x10, // 4
    0xF0, 0x80, 0xF0, 0x10, 0xF0, // 5
    0xF0, 0x80, 0xF0, 0x90, 0xF0, // 6
    0xF0, 0x10, 0x20, 0x40, 0x40, // 7
    0xF0, 0x90, 0xF0, 0x90, 0xF0, // 8
    0xF0, 0x90, 0xF0, 0x10, 0xF0, // 9
    0xF0, 0x90, 0xF0, 0x90, 0x90, // A
    0xE0, 0x90, 0xE0, 0x90, 0xE0, // B
    0xF0, 0x80, 0x80, 0x80, 0xF0, // C
    0xE0, 0x90, 0x90, 0x90, 0xE0, // D
    0xF0, 0x80, 0xF0, 0x80, 0xF0, // E
    0xF0, 0x80, 0xF0, 0x80, 0x80  // F
  ]

  /** All fields of the interpreter (headers/chip8.h:17-18, 63-71). */
  datatype State = State(
    mem: seq<u8>,       // memory[4096]
    v: seq<u8>,         // registers[16]
    index: u16,
    pc: u16,
    stack: seq<u16>,    // stack[16]
    sp: u8,
    delay: u8,          // delayTimer
    sound: u8,          // soundTimer
    keypad: seq<u8>,    // keypad[16], written by the host
    video: seq<u32>,    // video[64 * 32]
    opcode: u16)

  /** The array sizes, and sp within the stack. */
  predicate WellFormed(s: State) {
    |s.mem| == MEMORY_SIZE && |s.v| == REGISTER_COUNT && |s.stack| == STACK_DEPTH &&
    |s.keypad| == KEY_COUNT && |s.video| == VIDEO_SIZE && s.sp as int <= STACK_DEPTH
  }

  /** What an instruction, a cycle or a load reports. */
  datatype Status = Ok | AddressOutOfRange | StackOverflow | StackUnderflow | ImageTooLarge

  datatype Outcome = Outcome(status: Status, state: State)

  datatype Option<T> = None | Some(value: T)

  /** The state after construction: everything zero except the font and pc. */
  function Initial(): (s: State)
    ensures WellFormed(s)
  {
    State(
      mem := seq(MEMORY_SIZE, a =>
        if FONTSET_START_ADDRESS <= a < FONTSET_START_ADDRESS + FONTSET_SIZE
        then FONTSET[a - FONTSET_START_ADDRESS] else 0),
      v := seq(REGISTER_COUNT, _ => 0),
      index := 0,
      pc := START_ADDRESS,
      stack := seq(STACK_DEPTH, _ => 0),
      sp := 0,
      delay := 0,
      sound := 0,
      keypad := seq(KEY_COUNT, _ => 0),
      video := Blank(),
      opcode := 0)
  }

  /** Copies a program image to memory at 0x200. The source reads the image
      from a file and copies it without a size check; here an image that
      does not fit is refused and nothing changes. */
  function LoadImage(s: State, rom: seq<u8>): (r: Outcome)
    requires WellFormed(s)
    ensures WellFormed(r.state)
  {
    if |rom| > MEMORY_SIZE - START_ADDRESS then Outcome(ImageTooLarge, s)
    else Outcome(Ok, s.(mem := s.mem[..START_ADDRESS] + rom + s.mem[START_ADDRESS + |rom|..]))
  }

  // ---------------------------------------------------------------------
  // The opcode handlers. Each takes the fields the handler masks out of
  // the opcode.

  function SetReg(s: State, x: nibble, value: u8): (r: State)
    requires WellFormed(s)
    ensures WellFormed(r)
  {
    s.(v := s.v[x := value])
  }

  /** `pc += 2` when the condition holds. */
  function SkipIf(s: State, cond: bool): (r: State)
    requires WellFormed(s)
    ensures WellFormed(r)
  {
    if cond then s.(pc := Wrap16(s.pc as int + 2)) else s
  }

  /** 00E0 */
  function ClearScreen(s: State): (r: State)
    requires WellFormed(s)
    ensures WellFormed(r)
  {
    s.(video := Blank())
  }

  /** 00EE: `--sp; pc = stack[sp];` where sp == 0 would index stack[255]. */
  function Return(s: State): (r: Outcome)
    requires WellFormed(s)
    ensures WellFormed(r.state)
  {
    if s.sp == 0 then Outcome(StackUnderflow, s)
    else Outcome(Ok, s.(sp := s.sp - 1, pc := s.stack[s.sp - 1]))
  }

  /** 1nnn */
  function Jump(s: State, nnn: u12): (r: State)
    requires WellFormed(s)
    ensures WellFormed(r)
  {
    s.(pc := nnn)
  }

  /** 2nnn: `stack[sp] = pc; ++sp; pc = nnn;` where sp == 16 would write past the stack. */
  function CallSub(s: State, nnn: u12): (r: Outcome)
    requires WellFormed(s)
    ensures WellFormed(r.state)
  {
    if s.sp as int >= STACK_DEPTH then Outcome(StackOverflow, s)
    else Outcome(Ok, s.(stack := s.stack[s.sp := s.pc], sp := s.sp + 1, pc := nnn))
  }

  /** 8xy4: the sum is taken first (line 254), then VF, then Vx. */
  function AddRegs(s: State, x: nibble, y: nibble): (r: State)
    requires WellFormed(s)
    ensures WellFormed(r)
  {
    var sum := s.v[x] as int + s.v[y];
    var flagged := s.v[VF := if sum > 0xFF then 1 else 0];
    s.(v := flagged[x := sum % 0x100])
  }

  /** 8xy5: VF is written first, then `Vx -= Vy` reads the updated registers. */
  function SubRegs(s: State, x: nibble, y: nibble): (r: State)
    requires WellFormed(s)
    ensures WellFormed(r)
  {
    var flagged := s.v[VF := if s.v[x] > s.v[y] then 1 else 0];
    s.(v := flagged[x := Wrap8(flagged[x] - flagged[y])])
  }

  /** 8xy6: VF gets the low bit, then `Vx >>= 1`; Vy is not used. */
  function ShiftRight(s: State, x: nibble): (r: State)
    requires WellFormed(s)
    ensures WellFormed(r)
  {
    var flagged := s.v[VF := s.v[x] % 2];
    s.(v := flagged[x := flagged[x] / 2])
  }

  /** 8xy7: VF is written first, then `Vx = Vy - Vx` reads the updated registers. */
  function SubRevRegs(s: State, x: nibble, y: nibble): (r: State)
    requires WellFormed(s)
    ensures WellFormed(r)
  {
    var flagged := s.v[VF := if s.v[y] > s.v[x] then 1 else 0];
    s.(v := flagged[x := Wrap8(flagged[y] - flagged[x])])
  }

  /** 8xyE: VF gets the top bit `(Vx & 0x80) >> 7`, then `Vx <<= 1`; Vy is not used. */
  function ShiftLeft(s: State, x: nibble): (r: State)
    requires WellFormed(s)
    ensures WellFormed(r)
  {
    var flagged := s.v[VF := s.v[x] / 0x80];
    s.(v := flagged[x := Wrap8(flagged[x] * 2)])
  }

  /** Bnnn: `pc = registers[0] + nnn`, at most 0xFF + 0xFFF = 0x10FE. */
  function JumpOffset(s: State, nnn: u12): (r: State)
    requires WellFormed(s)
    ensures WellFormed(r)
  {
    s.(pc := s.v[0] + nnn)
  }

  /** The sprite of Dxyn: n bytes of memory from I. */
  function SpriteAt(s: State, n: nibble): (sprite: seq<u8>)
    requires WellFormed(s) && (n == 0 || s.index as int + n <= MEMORY_SIZE)
    ensures |sprite| == n
  {
    if n == 0 then [] else s.mem[s.index .. s.index as int + n]
  }

  /** Dxyn: VF := 0, then draw at (Vx mod 64, Vy mod 32) with VF := 1 on a
      collision. Reading `memory[I + row]` past the end is reported. */
  function DrawAt(s: State, x: nibble, y: nibble, n: nibble): (r: Outcome)
    requires WellFormed(s)
    ensures WellFormed(r.state)
  {
    if n > 0 && s.index as int + n > MEMORY_SIZE then Outcome(AddressOutOfRange, s)
    else
      var c := DrawSprite(s.video, SpriteAt(s, n), s.v[x] % DISPLAY_WIDTH, s.v[y] % DISPLAY_HEIGHT);
      Outcome(Ok, s.(video := c.video, v := s.v[VF := if c.collided then 1 else 0]))
  }

  /** Ex9E (pressed) and ExA1 (not pressed): `keypad[Vx]` with Vx >= 16 is
      past the keypad and is reported. */
  function SkipIfKey(s: State, x: nibble, pressed: bool): (r: Outcome)
    requires WellFormed(s)
    ensures WellFormed(r.state)
  {
    var key := s.v[x];
    if key >= KEY_COUNT then Outcome(AddressOutOfRange, s)
    else Outcome(Ok, SkipIf(s, (s.keypad[key] != 0) == pressed))
  }

  /** The lowest key at or above `from` that is down (the if-chain of
      Fx0A, src/chip8.cpp:402-433). */
  function FirstPressed(keypad: seq<u8>, from: nat): (r: Option<nat>)
    requires |keypad| == KEY_COUNT && from <= KEY_COUNT
    ensures r.Some? ==> from <= r.value < KEY_COUNT && keypad[r.value] != 0
    ensures r.Some? ==> forall k :: from <= k < r.value ==> keypad[k] == 0
    ensures r.None? <==> forall k :: from <= k < KEY_COUNT ==> keypad[k] == 0
    decreases KEY_COUNT - from
  {
    if from == KEY_COUNT then None
    else if keypad[from] != 0 then Some(from)
    else FirstPressed(keypad, from + 1)
  }

  /** Fx0A: Vx := the lowest key down; with none down, `pc -= 2` so the
      instruction runs again. */
  function WaitKey(s: State, x: nibble): (r: State)
    requires WellFormed(s)
    ensures WellFormed(r)
  {
    match FirstPressed(s.keypad, 0)
    case Some(k) => SetReg(s, x, k)
    case None => s.(pc := Wrap16(s.pc as int - 2))
  }

  /** Fx1E: `index += Vx` on a uint16_t. */
  function AddIndex(s: State, x: nibble): (r: State)
    requires WellFormed(s)
    ensures WellFormed(r)
  {
    s.(index := Wrap16(s.index as int + s.v[x]))
  }

  /** Fx29: `index = 0x50 + 5 * Vx`, Vx not masked to a digit. */
  function FontAddress(s: State, x: nibble): (r: State)
    requires WellFormed(s)
    ensures WellFormed(r)
  {
    s.(index := FONTSET_START_ADDRESS + 5 * (s.v[x] as int))
  }

  /** Fx33: ones, tens, hundreds of Vx at I + 2, I + 1, I. */
  function StoreBcd(s: State, x: nibble): (r: Outcome)
    requires WellFormed(s)
    ensures WellFormed(r.state)
  {
    var i := s.index as int;
    if i + 2 >= MEMORY_SIZE then Outcome(AddressOutOfRange, s)
    else
      var value := s.v[x];
      Outcome(Ok, s.(mem := s.mem[i + 2 := value % 10][i + 1 := (value / 10) % 10][i := (value / 100) % 10]))
  }

  /** Fx55: memory[I + j] := Vj for j = 0..x. */
  function StoreRegisters(s: State, x: nibble): (r: Outcome)
    requires WellFormed(s)
    ensures WellFormed(r.state)
  {
    var i := s.index as int;
    if i + x >= MEMORY_SIZE then Outcome(AddressOutOfRange, s)
    else Outcome(Ok, s.(mem := s.mem[..i] + s.v[..x + 1] + s.mem[i + x + 1..]))
  }

  /** Fx65: Vj := memory[I + j] for j = 0..x. */
  function LoadRegisters(s: State, x: nibble): (r: Outcome)
    requires WellFormed(s)
    ensures WellFormed(r.state)
  {
    var i := s.index as int;
    if i + x >= MEMORY_SIZE then Outcome(AddressOutOfRange, s)
    else Outcome(Ok, s.(v := s.mem[i .. i + x + 1] + s.v[x + 1..]))
  }

  /** Families 0-5, 9, A and B: pc, the stack, the screen clear and I. */
  function ExecFlow(s: State, i: Instr): (r: Outcome)
    requires WellFormed(s) && InFlow(i)
    ensures WellFormed(r.state)
  {
    match i
    case Nop => Outcome(Ok, s)
    case Cls => Outcome(Ok, ClearScreen(s))
    case Ret => Return(s)
    case Jp(nnn) => Outcome(Ok, Jump(s, nnn))
    case Call(nnn) => CallSub(s, nnn)
    case SeImm(x, kk) => Outcome(Ok, SkipIf(s, s.v[x] == kk))
    case SneImm(x, kk) => Outcome(Ok, SkipIf(s, s.v[x] != kk))
    case SeReg(x, y) => Outcome(Ok, SkipIf(s, s.v[x] == s.v[y]))
    case SneReg(x, y) => Outcome(Ok, SkipIf(s, s.v[x] != s.v[y]))
    case LdI(nnn) => Outcome(Ok, s.(index := nnn))
    case JpV0(nnn) => Outcome(Ok, JumpOffset(s, nnn))
  }

  /** Families 6, 7 and C: a register from the low byte. */
  function ExecImmediate(s: State, i: Instr, rand: u8): (r: State)
    requires WellFormed(s) && InImmediate(i)
    ensures WellFormed(r)
  {
    match i
    case LdImm(x, kk) => SetReg(s, x, kk)
    case AddImm(x, kk) => SetReg(s, x, Wrap8(s.v[x] + kk))
    case Rnd(x, kk) => SetReg(s, x, And8(rand, kk))
  }

  /** `Table8`. */
  function ExecTable8(s: State, i: Instr): (r: State)
    requires WellFormed(s) && InTable8(i)
    ensures WellFormed(r)
  {
    match i
    case LdReg(x, y) => SetReg(s, x, s.v[y])
    case Or(x, y) => SetReg(s, x, Or8(s.v[x], s.v[y]))
    case And(x, y) => SetReg(s, x, And8(s.v[x], s.v[y]))
    case Xor(x, y) => SetReg(s, x, Xor8(s.v[x], s.v[y]))
    case AddReg(x, y) => AddRegs(s, x, y)
    case Sub(x, y) => SubRegs(s, x, y)
    case Shr(x, _) => ShiftRight(s, x)
    case Subn(x, y) => SubRevRegs(s, x, y)
    case Shl(x, _) => ShiftLeft(s, x)
  }

  /** Family D and `TableE`. */
  function ExecDrawKeys(s: State, i: Instr): (r: Outcome)
    requires WellFormed(s) && InDrawKeys(i)
    ensures WellFormed(r.state)
  {
    match i
    case Drw(x, y, n) => DrawAt(s, x, y, n)
    case Skp(x) => SkipIfKey(s, x, true)
    case Sknp(x) => SkipIfKey(s, x, false)
  }

  /** `TableF`. */
  function ExecTableF(s: State, i: Instr): (r: Outcome)
    requires WellFormed(s) && InTableF(i)
    ensures WellFormed(r.state)
  {
    match i
    case LdVxDt(x) => Outcome(Ok, SetReg(s, x, s.delay))
    case LdKey(x) => Outcome(Ok, WaitKey(s, x))
    case LdDtVx(x) => Outcome(Ok, s.(delay := s.v[x]))
    case LdStVx(x) => Outcome(Ok, s.(sound := s.v[x]))
    case AddI(x) => Outcome(Ok, AddIndex(s, x))
    case LdFont(x) => Outcome(Ok, FontAddress(s, x))
    case Bcd(x) => StoreBcd(s, x)
    case StoreRegs(x) => StoreRegisters(s, x)
    case LoadRegs(x) => LoadRegisters(s, x)
  }

  /** One handler, selected by the decoded instruction through the table
      of its group; `rand` is the byte the random engine would produce for
      Cxkk. An aborted instruction changes nothing. */
  function Exec(s: State, i: Instr, rand: u8): (r: Outcome)
    requires WellFormed(s)
    ensures WellFormed(r.state)
    ensures r.status != Ok ==> r.state == s
    ensures r.status in {Ok, AddressOutOfRange, StackOverflow, StackUnderflow}
  {
    if InTable8(i) then Outcome(Ok, ExecTable8(s, i))
    else if InTableF(i) then ExecTableF(s, i)
    else if InImmediate(i) then Outcome(Ok, ExecImmediate(s, i, rand))
    else if InDrawKeys(i) then ExecDrawKeys(s, i)
    else ExecFlow(s, i)
  }

  /** The big-endian word at address a: `(memory[a] << 8) | memory[a + 1]`. */
  function WordAt(mem: seq<u8>, a: nat): u16
    requires a + 1 < |mem|
  {
    (mem[a] as int) * 0x100 + mem[a + 1]
  }

  /** Each timer drops by one when it is nonzero. */
  function TickTimers(s: State): (r: State) {
    s.(delay := if s.delay > 0 then s.delay - 1 else 0,
       sound := if s.sound > 0 then s.sound - 1 else 0)
  }

  /** One `Cycle`: fetch the word at pc (reading memory[pc + 1] past the end
      is reported), `pc += 2`, run the handler, then tick the timers. A
      cycle whose instruction aborts does not tick the timers. */
  function Step(s: State, rand: u8): (r: Outcome)
    requires WellFormed(s)
    ensures WellFormed(r.state)
  {
    if s.pc as int + 1 >= MEMORY_SIZE then Outcome(AddressOutOfRange, s)
    else
      var w := WordAt(s.mem, s.pc);
      var r := Exec(s.(opcode := w, pc := Wrap16(s.pc as int + 2)), Decode(w), rand);
      if r.status == Ok then Outcome(Ok, TickTimers(r.state)) else r
  }
}
