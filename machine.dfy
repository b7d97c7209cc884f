/** The interpreter object of headers/chip8.h:12-78: its arrays are updated
    in place by the constructor, `LoadROM`, `Cycle` and one method per
    opcode handler. Every method is proved to leave the object in the state
    the matching function of `Semantics` describes, so all the properties
    proved of those functions hold of the object. */
module Machine {
  import opened Word
  import opened Instructions
  import opened Display
  import opened Semantics

  class Chip8 {
    const memory: array<u8>
    const registers: array<u8>
    const stack: array<u16>
    /** Written by the host between cycles; no method here changes it. */
    const keypad: array<u8>
    const video: array<u32>
    var index: u16
    var pc: u16
    var sp: u8
    var delayTimer: u8
    var soundTimer: u8
    var opcode: u16

    /** The array sizes of the header, sp within the stack,
        and three distinct byte arrays. */
    ghost predicate Valid()
      reads this
    {
      memory.Length == MEMORY_SIZE && registers.Length == REGISTER_COUNT &&
      stack.Length == STACK_DEPTH && keypad.Length == KEY_COUNT &&
      video.Length == VIDEO_SIZE && sp as int <= STACK_DEPTH &&
      memory != registers && memory != keypad && registers != keypad
    }

    /** The object's fields as a `Semantics.State`. */
    ghost function Abs(): (s: State)
      requires Valid()
      reads this, memory, registers, stack, keypad, video
      ensures WellFormed(s)
    {
      State(memory[..], registers[..], index, pc, stack[..], sp, delayTimer, soundTimer,
            keypad[..], video[..], opcode)
    }

    /** Zeroed memory with the font copied to 0x50 (src/chip8.cpp:34-37). */
    static method FontMemory() returns (mem: array<u8>)
      ensures fresh(mem) && mem[..] == Initial().mem
    {
      mem := new u8[MEMORY_SIZE](_ => 0);
      for i := 0 to FONTSET_SIZE
        invariant forall a :: 0 <= a < MEMORY_SIZE && !(FONTSET_START_ADDRESS <= a < FONTSET_START_ADDRESS + i) ==>
          mem[a] == 0
        invariant forall j :: 0 <= j < i ==> mem[FONTSET_START_ADDRESS + j] == FONTSET[j]
      {
        mem[FONTSET_START_ADDRESS + i] := FONTSET[i];
      }
      ghost var init := Initial();
      assert forall a :: 0 <= a < MEMORY_SIZE ==> mem[a] == init.mem[a];
    }

    /** Zeroed arrays, pc at 0x200 and the font in memory (src/chip8.cpp:31-38). */
    constructor ()
      ensures Valid() && Abs() == Initial()
      ensures fresh(memory) && fresh(registers) && fresh(stack) && fresh(keypad) && fresh(video)
    {
      var mem := FontMemory();
      var vid := new u32[VIDEO_SIZE](_ => 0);
      assert forall p :: 0 <= p < VIDEO_SIZE ==> vid[p] == 0;
      assert vid[..] == Blank();
      memory, video := mem, vid;
      registers := new u8[REGISTER_COUNT](_ => 0);
      stack := new u16[STACK_DEPTH](_ => 0);
      keypad := new u8[KEY_COUNT](_ => 0);
      index, sp, delayTimer, soundTimer, opcode := 0, 0, 0, 0, 0;
      pc := START_ADDRESS;
      new;
      ghost var init := Initial();
      assert registers[..] == init.v;
      assert stack[..] == init.stack;
      assert keypad[..] == init.keypad;
    }

    /** The copy loop of `LoadROM` (src/chip8.cpp:105-107); the bytes of the
        file are the parameter. */
    method Load(rom: seq<u8>) returns (status: Status)
      requires Valid()
      modifies memory
      ensures Valid()
      ensures status == LoadImage(old(Abs()), rom).status && Abs() == LoadImage(old(Abs()), rom).state
    {
      if |rom| > MEMORY_SIZE - START_ADDRESS {
        return ImageTooLarge;
      }
      for i := 0 to |rom|
        invariant forall a :: 0 <= a < MEMORY_SIZE ==>
          memory[a] == if START_ADDRESS <= a < START_ADDRESS + i then rom[a - START_ADDRESS] else old(memory[a])
      {
        memory[START_ADDRESS + i] := rom[i];
      }
      status := Ok;
      assert memory[..] == old(memory[..])[..START_ADDRESS] + rom + old(memory[..])[START_ADDRESS + |rom|..];
    }

    /** Fetch, `pc += 2`, execute, tick the timers (src/chip8.cpp:113-132);
        `rand` is the byte the random engine would draw for Cxkk. */
    method Cycle(rand: u8) returns (status: Status)
      requires Valid()
      modifies this, memory, registers, stack, video
      ensures Valid()
      ensures status == Step(old(Abs()), rand).status && Abs() == Step(old(Abs()), rand).state
    {
      if pc as int + 1 >= MEMORY_SIZE {
        return AddressOutOfRange;
      }
      Fetch();
      status := Execute(Decode(opcode), rand);
      if status == Ok {
        DecrementTimers();
      }
    }

    /** `opcode = (memory[pc] << 8u) | memory[pc + 1]` and `pc += 2`. */
    method Fetch()
      requires Valid() && pc as int + 1 < MEMORY_SIZE
      modifies this
      ensures Valid()
      ensures Abs() == old(Abs()).(opcode := WordAt(old(Abs()).mem, old(pc) as nat), pc := Wrap16(old(pc) as int + 2))
    {
      opcode := (memory[pc] as int) * 0x100 + memory[pc as int + 1];
      pc := Wrap16(pc as int + 2);
    }

    /** Each timer drops by one when it is nonzero (src/chip8.cpp:123-131). */
    method DecrementTimers()
      requires Valid()
      modifies this
      ensures Valid() && Abs() == Semantics.TickTimers(old(Abs()))
    {
      if delayTimer > 0 {
        delayTimer := delayTimer - 1;
      }
      if soundTimer > 0 {
        soundTimer := soundTimer - 1;
      }
    }

    /** The dispatch through `table` (src/chip8.cpp:121): one handler per
        decoded instruction, nothing for an empty slot. Families 8, E and F
        go through their own sub-tables (src/chip8.cpp:134-140). */
    method Execute(i: Instr, rand: u8) returns (status: Status)
      requires Valid()
      modifies this, memory, registers, stack, video
      ensures Valid()
      ensures status == Exec(old(Abs()), i, rand).status && Abs() == Exec(old(Abs()), i, rand).state
    {
      status := Ok;
      if InTable8(i) {
        ExecuteTable8(i);
      } else if InTableF(i) {
        status := ExecuteTableF(i);
      } else if InImmediate(i) {
        ExecuteImmediate(i, rand);
      } else if InDrawKeys(i) {
        status := ExecuteDrawKeys(i);
      } else {
        status := ExecuteFlow(i);
      }
    }

    method ExecuteFlow(i: Instr) returns (status: Status)
      requires Valid() && InFlow(i)
      modifies this, stack, video
      ensures Valid()
      ensures status == ExecFlow(old(Abs()), i).status && Abs() == ExecFlow(old(Abs()), i).state
    {
      status := Ok;
      match i
      case Nop =>
      case Cls => Op00E0();
      case Ret => status := Op00EE();
      case Jp(nnn) => Op1nnn(nnn);
      case Call(nnn) => status := Op2nnn(nnn);
      case SeImm(x, kk) => Op3xkk(x, kk);
      case SneImm(x, kk) => Op4xkk(x, kk);
      case SeReg(x, y) => Op5xy0(x, y);
      case SneReg(x, y) => Op9xy0(x, y);
      case LdI(nnn) => OpAnnn(nnn);
      case JpV0(nnn) => OpBnnn(nnn);
    }

    method ExecuteImmediate(i: Instr, rand: u8)
      requires Valid() && InImmediate(i)
      modifies registers
      ensures Valid() && Abs() == ExecImmediate(old(Abs()), i, rand)
    {
      match i
      case LdImm(x, kk) => Op6xkk(x, kk);
      case AddImm(x, kk) => Op7xkk(x, kk);
      case Rnd(x, kk) => OpCxkk(x, kk, rand);
    }

    /** `Table8` (src/chip8.cpp:136). */
    method ExecuteTable8(i: Instr)
      requires Valid() && InTable8(i)
      modifies registers
      ensures Valid() && Abs() == ExecTable8(old(Abs()), i)
    {
      match i
      case LdReg(x, y) => Op8xy0(x, y);
      case Or(x, y) => Op8xy1(x, y);
      case And(x, y) => Op8xy2(x, y);
      case Xor(x, y) => Op8xy3(x, y);
      case AddReg(x, y) => Op8xy4(x, y);
      case Sub(x, y) => Op8xy5(x, y);
      case Shr(x, _) => Op8xy6(x);
      case Subn(x, y) => Op8xy7(x, y);
      case Shl(x, _) => Op8xyE(x);
    }

    /** Family D and `TableE` (src/chip8.cpp:138). */
    method ExecuteDrawKeys(i: Instr) returns (status: Status)
      requires Valid() && InDrawKeys(i)
      modifies this, registers, video
      ensures Valid()
      ensures status == ExecDrawKeys(old(Abs()), i).status && Abs() == ExecDrawKeys(old(Abs()), i).state
    {
      match i
      case Drw(x, y, n) => status := OpDxyn(x, y, n);
      case Skp(x) => status := OpEx9E(x);
      case Sknp(x) => status := OpExA1(x);
    }

    /** `TableF` (src/chip8.cpp:140), dispatched on the low byte. */
    method ExecuteTableF(i: Instr) returns (status: Status)
      requires Valid() && InTableF(i)
      modifies this, memory, registers
      ensures Valid()
      ensures status == ExecTableF(old(Abs()), i).status && Abs() == ExecTableF(old(Abs()), i).state
    {
      status := Ok;
      match i
      case LdVxDt(x) => OpFx07(x);
      case LdKey(x) => OpFx0A(x);
      case LdDtVx(x) => OpFx15(x);
      case LdStVx(x) => OpFx18(x);
      case AddI(x) => OpFx1E(x);
      case LdFont(x) => OpFx29(x);
      case Bcd(x) => status := OpFx33(x);
      case StoreRegs(x) => status := OpFx55(x);
      case LoadRegs(x) => status := OpFx65(x);
    }

    // -------------------------------------------------------------------
    // Control flow (src/chip8.cpp:144-199, 311-332)

    method Op00E0()
      requires Valid()
      modifies video
      ensures Valid() && Abs() == ClearScreen(old(Abs()))
    {
      forall p | 0 <= p < VIDEO_SIZE {
        video[p] := 0;
      }
      assert video[..] == Blank();
    }

    method Op00EE() returns (status: Status)
      requires Valid()
      modifies this
      ensures Valid()
      ensures status == Return(old(Abs())).status && Abs() == Return(old(Abs())).state
    {
      if sp == 0 {
        return StackUnderflow;
      }
      sp := sp - 1;
      pc := stack[sp];
      status := Ok;
    }

    method Op1nnn(nnn: u12)
      requires Valid()
      modifies this
      ensures Valid() && Abs() == Jump(old(Abs()), nnn)
    {
      pc := nnn;
    }

    method Op2nnn(nnn: u12) returns (status: Status)
      requires Valid()
      modifies this, stack
      ensures Valid()
      ensures status == CallSub(old(Abs()), nnn).status && Abs() == CallSub(old(Abs()), nnn).state
    {
      if sp as int >= STACK_DEPTH {
        return StackOverflow;
      }
      stack[sp] := pc;
      sp := sp + 1;
      pc := nnn;
      status := Ok;
    }

    method Op3xkk(x: nibble, kk: u8)
      requires Valid()
      modifies this
      ensures Valid() && Abs() == SkipIf(old(Abs()), old(registers[x]) == kk)
    {
      if registers[x] == kk {
        pc := Wrap16(pc as int + 2);
      }
    }

    method Op4xkk(x: nibble, kk: u8)
      requires Valid()
      modifies this
      ensures Valid() && Abs() == SkipIf(old(Abs()), old(registers[x]) != kk)
    {
      if registers[x] != kk {
        pc := Wrap16(pc as int + 2);
      }
    }

    method Op5xy0(x: nibble, y: nibble)
      requires Valid()
      modifies this
      ensures Valid() && Abs() == SkipIf(old(Abs()), old(registers[x]) == old(registers[y]))
    {
      if registers[x] == registers[y] {
        pc := Wrap16(pc as int + 2);
      }
    }

    method Op9xy0(x: nibble, y: nibble)
      requires Valid()
      modifies this
      ensures Valid() && Abs() == SkipIf(old(Abs()), old(registers[x]) != old(registers[y]))
    {
      if registers[x] != registers[y] {
        pc := Wrap16(pc as int + 2);
      }
    }

    method OpAnnn(nnn: u12)
      requires Valid()
      modifies this
      ensures Valid() && Abs() == old(Abs()).(index := nnn)
    {
      index := nnn;
    }

    method OpBnnn(nnn: u12)
      requires Valid()
      modifies this
      ensures Valid() && Abs() == JumpOffset(old(Abs()), nnn)
    {
      pc := registers[0] as int + nnn;
    }

    // -------------------------------------------------------------------
    // Registers (src/chip8.cpp:201-309, 334-340)

    method Op6xkk(x: nibble, kk: u8)
      requires Valid()
      modifies registers
      ensures Valid() && Abs() == SetReg(old(Abs()), x, kk)
    {
      registers[x] := kk;
    }

    method Op7xkk(x: nibble, kk: u8)
      requires Valid()
      modifies registers
      ensures Valid() && Abs() == SetReg(old(Abs()), x, Wrap8(old(registers[x]) + kk))
    {
      registers[x] := Wrap8(registers[x] as int + kk);
    }

    method Op8xy0(x: nibble, y: nibble)
      requires Valid()
      modifies registers
      ensures Valid() && Abs() == SetReg(old(Abs()), x, old(registers[y]))
    {
      registers[x] := registers[y];
    }

    method Op8xy1(x: nibble, y: nibble)
      requires Valid()
      modifies registers
      ensures Valid() && Abs() == SetReg(old(Abs()), x, Or8(old(registers[x]), old(registers[y])))
    {
      registers[x] := Or8(registers[x], registers[y]);
    }

    method Op8xy2(x: nibble, y: nibble)
      requires Valid()
      modifies registers
      ensures Valid() && Abs() == SetReg(old(Abs()), x, And8(old(registers[x]), old(registers[y])))
    {
      registers[x] := And8(registers[x], registers[y]);
    }

    method Op8xy3(x: nibble, y: nibble)
      requires Valid()
      modifies registers
      ensures Valid() && Abs() == SetReg(old(Abs()), x, Xor8(old(registers[x]), old(registers[y])))
    {
      registers[x] := Xor8(registers[x], registers[y]);
    }

    method Op8xy4(x: nibble, y: nibble)
      requires Valid()
      modifies registers
      ensures Valid() && Abs() == AddRegs(old(Abs()), x, y)
    {
      var sum := registers[x] as int + registers[y];
      registers[VF] := if sum > 0xFF then 1 else 0;
      registers[x] := sum % 0x100;
    }

    method Op8xy5(x: nibble, y: nibble)
      requires Valid()
      modifies registers
      ensures Valid() && Abs() == SubRegs(old(Abs()), x, y)
    {
      registers[VF] := if registers[x] > registers[y] then 1 else 0;
      registers[x] := Wrap8(registers[x] as int - registers[y]);
    }

    method Op8xy6(x: nibble)
      requires Valid()
      modifies registers
      ensures Valid() && Abs() == ShiftRight(old(Abs()), x)
    {
      registers[VF] := registers[x] % 2;
      registers[x] := registers[x] / 2;
    }

    method Op8xy7(x: nibble, y: nibble)
      requires Valid()
      modifies registers
      ensures Valid() && Abs() == SubRevRegs(old(Abs()), x, y)
    {
      registers[VF] := if registers[y] > registers[x] then 1 else 0;
      registers[x] := Wrap8(registers[y] as int - registers[x]);
    }

    method Op8xyE(x: nibble)
      requires Valid()
      modifies registers
      ensures Valid() && Abs() == ShiftLeft(old(Abs()), x)
    {
      registers[VF] := registers[x] / 0x80;
      registers[x] := Wrap8(registers[x] as int * 2);
    }

    method OpCxkk(x: nibble, kk: u8, rand: u8)
      requires Valid()
      modifies registers
      ensures Valid() && Abs() == SetReg(old(Abs()), x, And8(rand, kk))
    {
      registers[x] := And8(rand, kk);
    }

    // -------------------------------------------------------------------
    // The screen (src/chip8.cpp:342-371)

    /** The screen and the registers once Dxyn's inner loop body has run for
        every bit before bit `col` of row `row`, started from `screen` and the
        registers `regs`. */
    ghost predicate Drawn(screen: seq<u32>, sprite: seq<u8>, x0: nat, y0: nat, row: nat, col: nat, regs: seq<u8>)
      requires Valid()
      reads this, registers, video
    {
      |screen| == VIDEO_SIZE && 8 * row + col <= 8 * |sprite| && |regs| == REGISTER_COUNT &&
      var c := DrawSteps(screen, sprite, x0, y0, 8 * row + col);
      video[..] == c.video && registers[..] == regs[VF := if c.collided then 1 else 0]
    }

    /** The row and column loops of Dxyn: VF := 0, then one pass per
        sprite bit. */
    method OpDxyn(x: nibble, y: nibble, n: nibble) returns (status: Status)
      requires Valid()
      modifies registers, video
      ensures Valid()
      ensures status == DrawAt(old(Abs()), x, y, n).status && Abs() == DrawAt(old(Abs()), x, y, n).state
    {
      if n > 0 && index as int + n > MEMORY_SIZE {
        return AddressOutOfRange;
      }
      ghost var s := Abs();
      ghost var sprite := SpriteAt(s, n);
      ghost var screen, regs := s.video, s.v;
      var xPos := registers[x] % DISPLAY_WIDTH;
      var yPos := registers[y] % DISPLAY_HEIGHT;
      registers[VF] := 0;
      assert registers[..] == regs[VF := 0];
      DrawRows(screen, sprite, xPos, yPos, n, regs);
      ghost var c := DrawSprite(screen, sprite, xPos, yPos);
      assert video[..] == c.video && registers[..] == s.v[VF := if c.collided then 1 else 0];
      assert memory[..] == s.mem && stack[..] == s.stack && keypad[..] == s.keypad;
      assert Abs() == s.(video := c.video, v := s.v[VF := if c.collided then 1 else 0]);
      status := Ok;
    }

    /** The row loop of Dxyn: row r of the sprite is `memory[I + r]`. */
    method DrawRows(ghost screen: seq<u32>, ghost sprite: seq<u8>, x0: nat, y0: nat,
                    n: nibble, ghost regs: seq<u8>)
      requires Valid() && |sprite| == n && (n == 0 || index as int + n <= MEMORY_SIZE)
      requires forall r :: 0 <= r < n ==> sprite[r] == memory[index as int + r]
      requires Drawn(screen, sprite, x0, y0, 0, 0, regs)
      modifies registers, video
      ensures Valid() && Drawn(screen, sprite, x0, y0, n, 0, regs)
    {
      for row := 0 to n
        invariant Drawn(screen, sprite, x0, y0, row, 0, regs)
      {
        var spriteByte := memory[index as int + row];
        DrawRow(screen, sprite, x0, y0, row, spriteByte, regs);
      }
    }

    /** The column loop of Dxyn for one sprite row. */
    method DrawRow(ghost screen: seq<u32>, ghost sprite: seq<u8>, x0: nat, y0: nat,
                   row: nat, spriteByte: u8, ghost regs: seq<u8>)
      requires Valid() && row < |sprite| && sprite[row] == spriteByte
      requires Drawn(screen, sprite, x0, y0, row, 0, regs)
      modifies registers, video
      ensures Valid() && Drawn(screen, sprite, x0, y0, row + 1, 0, regs)
    {
      for col := 0 to 8
        invariant Drawn(screen, sprite, x0, y0, row, col, regs)
      {
        DrawPass(screen, sprite, x0, y0, row, col, spriteByte, regs);
      }
    }

    /** One pass of the inner loop body: pixel (row, col) of the sprite. */
    method DrawPass(ghost screen: seq<u32>, ghost sprite: seq<u8>, x0: nat, y0: nat,
                    row: nat, col: nat, spriteByte: u8, ghost regs: seq<u8>)
      requires Valid() && col < 8 && row < |sprite| && sprite[row] == spriteByte
      requires Drawn(screen, sprite, x0, y0, row, col, regs)
      modifies registers, video
      ensures Valid() && Drawn(screen, sprite, x0, y0, row, col + 1, regs)
    {
      assert (8 * row + col) / 8 == row && (8 * row + col) % 8 == col;
      if SpriteBit(spriteByte, col) && InFrame(x0, y0, row, col) {
        var p := PixelIndex(x0, y0, row, col);
        if video[p] == PIXEL_ON {
          registers[VF] := 1;
        }
        video[p] := Toggle(video[p]);
      }
    }

    // -------------------------------------------------------------------
    // The keypad (src/chip8.cpp:373-437)

    method OpEx9E(x: nibble) returns (status: Status)
      requires Valid()
      modifies this
      ensures Valid()
      ensures status == SkipIfKey(old(Abs()), x, true).status && Abs() == SkipIfKey(old(Abs()), x, true).state
    {
      var key := registers[x];
      if key >= KEY_COUNT {
        return AddressOutOfRange;
      }
      if keypad[key] != 0 {
        pc := Wrap16(pc as int + 2);
      }
      status := Ok;
    }

    method OpExA1(x: nibble) returns (status: Status)
      requires Valid()
      modifies this
      ensures Valid()
      ensures status == SkipIfKey(old(Abs()), x, false).status && Abs() == SkipIfKey(old(Abs()), x, false).state
    {
      var key := registers[x];
      if key >= KEY_COUNT {
        return AddressOutOfRange;
      }
      if keypad[key] == 0 {
        pc := Wrap16(pc as int + 2);
      }
      status := Ok;
    }

    /** The if-chain over keypad[0..15] is `FirstPressed`. */
    method OpFx0A(x: nibble)
      requires Valid()
      modifies this, registers
      ensures Valid() && Abs() == WaitKey(old(Abs()), x)
    {
      var pressed := FirstPressed(keypad[..], 0);
      match pressed
      case Some(key) => registers[x] := key;
      case None => pc := Wrap16(pc as int - 2);
    }

    // -------------------------------------------------------------------
    // Timers, the index register and memory (src/chip8.cpp:393-397, 439-490)

    method OpFx07(x: nibble)
      requires Valid()
      modifies registers
      ensures Valid() && Abs() == SetReg(old(Abs()), x, old(delayTimer))
    {
      registers[x] := delayTimer;
    }

    method OpFx15(x: nibble)
      requires Valid()
      modifies this
      ensures Valid() && Abs() == old(Abs()).(delay := old(registers[x]))
    {
      delayTimer := registers[x];
    }

    method OpFx18(x: nibble)
      requires Valid()
      modifies this
      ensures Valid() && Abs() == old(Abs()).(sound := old(registers[x]))
    {
      soundTimer := registers[x];
    }

    method OpFx1E(x: nibble)
      requires Valid()
      modifies this
      ensures Valid() && Abs() == AddIndex(old(Abs()), x)
    {
      index := Wrap16(index as int + registers[x]);
    }

    method OpFx29(x: nibble)
      requires Valid()
      modifies this
      ensures Valid() && Abs() == FontAddress(old(Abs()), x)
    {
      index := FONTSET_START_ADDRESS + 5 * (registers[x] as int);
    }

    /** Ones, then tens, then hundreds, dividing the value by ten between. */
    method OpFx33(x: nibble) returns (status: Status)
      requires Valid()
      modifies memory
      ensures Valid()
      ensures status == StoreBcd(old(Abs()), x).status && Abs() == StoreBcd(old(Abs()), x).state
    {
      if index as int + 2 >= MEMORY_SIZE {
        return AddressOutOfRange;
      }
      var value := registers[x];
      memory[index as int + 2] := value % 10;
      value := value / 10;
      memory[index as int + 1] := value % 10;
      value := value / 10;
      memory[index] := value % 10;
      status := Ok;
    }

    method OpFx55(x: nibble) returns (status: Status)
      requires Valid()
      modifies memory
      ensures Valid()
      ensures status == StoreRegisters(old(Abs()), x).status && Abs() == StoreRegisters(old(Abs()), x).state
    {
      if index as int + x >= MEMORY_SIZE {
        return AddressOutOfRange;
      }
      for i := 0 to x + 1
        invariant forall a :: 0 <= a < MEMORY_SIZE ==>
          memory[a] == if index as int <= a < index as int + i then registers[a - index as int] else old(memory[a])
      {
        memory[index as int + i] := registers[i];
      }
      status := Ok;
      assert memory[..] ==
        old(memory[..])[..index] + registers[..x + 1] + old(memory[..])[index as int + x + 1..];
    }

    method OpFx65(x: nibble) returns (status: Status)
      requires Valid()
      modifies registers
      ensures Valid()
      ensures status == LoadRegisters(old(Abs()), x).status && Abs() == LoadRegisters(old(Abs()), x).state
    {
      if index as int + x >= MEMORY_SIZE {
        return AddressOutOfRange;
      }
      for i := 0 to x + 1
        invariant forall j :: 0 <= j < REGISTER_COUNT ==>
          registers[j] == if j < i then memory[index as int + j] else old(registers[j])
      {
        registers[i] := memory[index as int + i];
      }
      status := Ok;
      assert registers[..] == memory[index .. index as int + x + 1] + old(registers[..])[x + 1..];
    }
  }
}
