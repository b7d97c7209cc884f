/** What the instruction semantics promise: the fetch-execute cycle, the
    arithmetic flags, the stack, the memory transfers, the keypad wait, the
    ROM image and the screen. */
module Properties {
  import opened Word
  import opened Instructions
  import opened Display
  import opened Semantics

  // ---------------------------------------------------------------------
  // The cycle (src/chip8.cpp:113-132)

  /** A fetch whose second byte lies past memory is reported and changes nothing. */
  lemma StepFetchOutOfRange(s: State, rand: u8)
    requires WellFormed(s) && s.pc as int + 1 >= MEMORY_SIZE
    ensures Step(s, rand) == Outcome(AddressOutOfRange, s)
  {
  }

  /** Every cycle that fetches records the fetched big-endian word as the
      opcode, whatever the instruction does afterwards. */
  lemma StepRecordsOpcode(s: State, rand: u8)
    requires WellFormed(s) && s.pc as int + 1 < MEMORY_SIZE
    ensures Step(s, rand).state.opcode == (s.mem[s.pc] as int) * 0x100 + s.mem[s.pc + 1]
  {
  }

  /** The instructions that neither jump, call, return, skip nor wait. */
  predicate FallsThrough(i: Instr) {
    !(i.Jp? || i.Call? || i.Ret? || i.JpV0? || i.LdKey? ||
      i.SeImm? || i.SneImm? || i.SeReg? || i.SneReg? || i.Skp? || i.Sknp?)
  }

  /** A straight-line instruction that completes leaves pc on the next word. */
  lemma StepAdvancesPc(s: State, rand: u8)
    requires WellFormed(s) && s.pc as int + 1 < MEMORY_SIZE
    requires FallsThrough(Decode(WordAt(s.mem, s.pc)))
    ensures Step(s, rand).status == Ok ==> Step(s, rand).state.pc == s.pc + 2
  {
  }

  /** A completed cycle ticks both timers down towards zero, after the
      instruction has run (so Fx15 and Fx18 set a timer that is then ticked). */
  lemma StepTicksTimers(s: State, rand: u8)
    requires WellFormed(s) && s.pc as int + 1 < MEMORY_SIZE
    requires Step(s, rand).status == Ok
    ensures var i := Decode(WordAt(s.mem, s.pc));
      var d := if i.LdDtVx? then s.v[i.x] else s.delay;
      var t := if i.LdStVx? then s.v[i.x] else s.sound;
      Step(s, rand).state.delay == (if d > 0 then d - 1 else 0) &&
      Step(s, rand).state.sound == (if t > 0 then t - 1 else 0)
  {
  }

  /** An unassigned slot of the dispatch tables only advances pc and ticks
      the timers. */
  lemma StepNop(s: State, rand: u8)
    requires WellFormed(s) && s.pc as int + 1 < MEMORY_SIZE
    requires Decode(WordAt(s.mem, s.pc)) == Nop
    ensures Step(s, rand) ==
      Outcome(Ok, TickTimers(s.(opcode := WordAt(s.mem, s.pc), pc := s.pc + 2)))
  {
  }

  // ---------------------------------------------------------------------
  // Subroutines (src/chip8.cpp:149-169)

  /** A call followed by the return at its target resumes after the call,
      with sp back where it was. */
  lemma CallThenReturn(s: State, rand1: u8, rand2: u8, nnn: u12)
    requires WellFormed(s) && s.pc as int + 1 < MEMORY_SIZE && nnn + 1 < MEMORY_SIZE
    requires Decode(WordAt(s.mem, s.pc)) == Call(nnn) && Decode(WordAt(s.mem, nnn)) == Ret
    requires s.sp as int < STACK_DEPTH
    ensures var r1 := Step(s, rand1);
      r1.status == Ok && r1.state.pc == nnn && r1.state.sp == s.sp + 1 &&
      r1.state.stack[s.sp] == s.pc + 2
    ensures var r2 := Step(Step(s, rand1).state, rand2);
      r2.status == Ok && r2.state.pc == s.pc + 2 && r2.state.sp == s.sp &&
      r2.state.v == s.v && r2.state.mem == s.mem && r2.state.index == s.index
  {
    var r1 := Step(s, rand1);
    assert r1.state.mem == s.mem;
  }

  /** The 17th nested call is refused: the stack holds 16 return addresses. */
  lemma CallOnFullStack(s: State, nnn: u12, rand: u8)
    requires WellFormed(s) && s.sp as int == STACK_DEPTH
    ensures Exec(s, Call(nnn), rand) == Outcome(StackOverflow, s)
  {
  }

  /** A return with nothing on the stack is refused. */
  lemma ReturnOnEmptyStack(s: State, rand: u8)
    requires WellFormed(s) && s.sp == 0
    ensures Exec(s, Ret, rand) == Outcome(StackUnderflow, s)
  {
  }

  // ---------------------------------------------------------------------
  // Arithmetic and the flag register (src/chip8.cpp:209-309)

  /** 8xy4: the result and the carry together make up the full sum. */
  lemma AddCarry(s: State, x: nibble, y: nibble)
    requires WellFormed(s) && x != VF
    ensures var r := AddRegs(s, x, y);
      r.v[x] as int + 0x100 * (r.v[VF] as int) == s.v[x] as int + s.v[y] &&
      (r.v[VF] == 1 <==> s.v[x] as int + s.v[y] > 0xFF) && r.v[VF] <= 1 &&
      forall j :: 0 <= j < REGISTER_COUNT && j != x && j != VF ==> r.v[j] == s.v[j]
  {
  }

  /** 8xy4 into VF: the result overwrites the carry just written. */
  lemma AddIntoFlag(s: State, y: nibble)
    requires WellFormed(s)
    ensures AddRegs(s, VF, y).v[VF] == (s.v[VF] as int + s.v[y]) % 0x100
  {
  }

  /** 8xy5: VF is 1 exactly when Vx > Vy (strictly, so Vx == Vy gives 0),
      and Vx becomes the difference modulo 256. */
  lemma SubBorrow(s: State, x: nibble, y: nibble)
    requires WellFormed(s) && x != VF && y != VF
    ensures var r := SubRegs(s, x, y);
      r.v[x] == (s.v[x] as int - s.v[y]) % 0x100 && r.v[VF] <= 1 &&
      (r.v[VF] == 1 <==> s.v[x] > s.v[y]) &&
      (s.v[x] >= s.v[y] ==> r.v[x] == s.v[x] - s.v[y]) &&
      forall j :: 0 <= j < REGISTER_COUNT && j != x && j != VF ==> r.v[j] == s.v[j]
  {
  }

  /** 8xF5-style subtraction of VF: the subtrahend is the flag just written,
      not the old VF. */
  lemma SubReadsNewFlag(s: State, x: nibble)
    requires WellFormed(s) && x != VF
    ensures SubRegs(s, x, VF).v[x] == Wrap8(s.v[x] - (if s.v[x] > s.v[VF] then 1 else 0))
  {
  }

  /** 8xy7: VF is 1 exactly when Vy > Vx, and Vx becomes Vy - Vx modulo 256. */
  lemma SubnBorrow(s: State, x: nibble, y: nibble)
    requires WellFormed(s) && x != VF && y != VF
    ensures var r := SubRevRegs(s, x, y);
      r.v[x] == (s.v[y] as int - s.v[x]) % 0x100 && r.v[VF] <= 1 &&
      (r.v[VF] == 1 <==> s.v[y] > s.v[x]) &&
      forall j :: 0 <= j < REGISTER_COUNT && j != x && j != VF ==> r.v[j] == s.v[j]
  {
  }

  /** 8xy6: the shifted value and the bit shifted out recombine to Vx. */
  lemma ShiftRightBit(s: State, x: nibble)
    requires WellFormed(s) && x != VF
    ensures var r := ShiftRight(s, x);
      2 * r.v[x] + r.v[VF] == s.v[x] && r.v[VF] <= 1 && r.v[x] < 0x80 &&
      forall j :: 0 <= j < REGISTER_COUNT && j != x && j != VF ==> r.v[j] == s.v[j]
  {
  }

  /** 8xyE: the shifted value and the bit shifted out recombine to 2 * Vx. */
  lemma ShiftLeftBit(s: State, x: nibble)
    requires WellFormed(s) && x != VF
    ensures var r := ShiftLeft(s, x);
      r.v[x] as int + 0x100 * (r.v[VF] as int) == 2 * s.v[x] as int && r.v[VF] <= 1 && r.v[x] % 2 == 0 &&
      forall j :: 0 <= j < REGISTER_COUNT && j != x && j != VF ==> r.v[j] == s.v[j]
  {
  }

  /** Adding Vy and then subtracting it again restores Vx. */
  lemma AddThenSub(s: State, x: nibble, y: nibble)
    requires WellFormed(s) && x != VF && y != VF && x != y
    ensures SubRegs(AddRegs(s, x, y), x, y).v[x] == s.v[x]
  {
  }

  /** 200 + 100 leaves 44 with the carry set. */
  lemma AddExample(s: State)
    requires WellFormed(s) && s.v[0] == 200 && s.v[1] == 100
    ensures AddRegs(s, 0, 1).v[0] == 44 && AddRegs(s, 0, 1).v[VF] == 1
  {
  }

  /** 5 - 10 leaves 251 with VF clear (a borrow). */
  lemma SubExample(s: State)
    requires WellFormed(s) && s.v[0] == 5 && s.v[1] == 10
    ensures SubRegs(s, 0, 1).v[0] == 251 && SubRegs(s, 0, 1).v[VF] == 0
  {
  }

  /** 7xkk wraps modulo 256 and, unlike 8xy4, leaves VF alone. */
  lemma AddImmNoCarry(s: State, x: nibble, kk: u8, rand: u8)
    requires WellFormed(s) && x != VF
    ensures var r := Exec(s, AddImm(x, kk), rand).state;
      r.v[x] == (s.v[x] + kk) % 0x100 && r.v[VF] == s.v[VF]
    ensures s.v[x] == 250 && kk == 10 ==> Exec(s, AddImm(x, kk), rand).state.v[x] == 4
  {
  }

  /** Bnnn lands at most at 0xFF + 0xFFF = 0x10FE, which is past memory:
      the next fetch from there is reported. */
  lemma JumpOffsetPastMemory(s: State, nnn: u12, rand: u8)
    requires WellFormed(s)
    ensures JumpOffset(s, nnn).pc as int == s.v[0] + nnn <= 0x10FE
    ensures s.v[0] + nnn >= MEMORY_SIZE - 1 ==>
      Step(JumpOffset(s, nnn), rand).status == AddressOutOfRange
  {
  }

  /** Fx1E wraps on the 16-bit index register and sets no flag. */
  lemma AddIndexWraps(s: State, x: nibble)
    requires WellFormed(s)
    ensures var r := AddIndex(s, x);
      r.index == (s.index + s.v[x]) % 0x1_0000 && r.v == s.v &&
      (s.index as int + s.v[x] < 0x1_0000 ==> r.index == s.index + s.v[x])
  {
  }

  // ---------------------------------------------------------------------
  // Skips (src/chip8.cpp:171-199, 311-318, 373-391)

  /** The condition under which a skip instruction skips. */
  predicate SkipTaken(s: State, i: Instr)
    requires WellFormed(s)
    requires i.SeImm? || i.SneImm? || i.SeReg? || i.SneReg? || i.Skp? || i.Sknp?
    requires (i.Skp? || i.Sknp?) ==> s.v[i.x] < KEY_COUNT
  {
    match i
    case SeImm(x, kk) => s.v[x] == kk
    case SneImm(x, kk) => s.v[x] != kk
    case SeReg(x, y) => s.v[x] == s.v[y]
    case SneReg(x, y) => s.v[x] != s.v[y]
    case Skp(x) => s.keypad[s.v[x]] != 0
    case Sknp(x) => s.keypad[s.v[x]] == 0
  }

  /** A skip moves pc past the next instruction exactly when its condition
      holds, and changes nothing else but the opcode and the timers. */
  lemma StepSkips(s: State, rand: u8)
    requires WellFormed(s) && s.pc as int + 1 < MEMORY_SIZE
    requires var i := Decode(WordAt(s.mem, s.pc));
      (i.SeImm? || i.SneImm? || i.SeReg? || i.SneReg? || i.Skp? || i.Sknp?) &&
      ((i.Skp? || i.Sknp?) ==> s.v[i.x] < KEY_COUNT)
    ensures var r := Step(s, rand);
      r.status == Ok &&
      r.state.pc == if SkipTaken(s, Decode(WordAt(s.mem, s.pc))) then s.pc + 4 else s.pc + 2
    ensures var r := Step(s, rand).state;
      r.v == s.v && r.mem == s.mem && r.index == s.index && r.sp == s.sp && r.video == s.video
  {
  }

  /** Ex9E and ExA1 with a key number past the keypad are reported. */
  lemma KeySkipOutOfRange(s: State, x: nibble, rand: u8)
    requires WellFormed(s) && s.v[x] >= KEY_COUNT
    ensures Exec(s, Skp(x), rand) == Outcome(AddressOutOfRange, s)
    ensures Exec(s, Sknp(x), rand) == Outcome(AddressOutOfRange, s)
  {
  }

  // ---------------------------------------------------------------------
  // The keypad wait (src/chip8.cpp:399-437)

  /** Fx0A stores the lowest key that is down. */
  lemma WaitKeyLowest(s: State, x: nibble, k: nat)
    requires WellFormed(s) && k < KEY_COUNT && s.keypad[k] != 0
    requires forall j :: 0 <= j < k ==> s.keypad[j] == 0
    ensures WaitKey(s, x) == s.(v := s.v[x := k])
  {
    var f := FirstPressed(s.keypad, 0);
    assert f.Some?;
    assert f.value == k;
  }

  /** With no key down, the cycle that runs Fx0A ends on Fx0A again, so it
      runs once more; registers, memory and the screen are unchanged. */
  lemma WaitKeyRepeats(s: State, rand: u8)
    requires WellFormed(s) && s.pc as int + 1 < MEMORY_SIZE
    requires Decode(WordAt(s.mem, s.pc)).LdKey?
    requires forall j :: 0 <= j < KEY_COUNT ==> s.keypad[j] == 0
    ensures var r := Step(s, rand);
      r.status == Ok && r.state.pc == s.pc && r.state.v == s.v &&
      r.state.mem == s.mem && r.state.video == s.video
  {
  }

  // ---------------------------------------------------------------------
  // Memory transfers (src/chip8.cpp:457-490)

  /** Fx29 with a digit points I at its five-byte glyph in the font. */
  lemma FontAddressGlyph(s: State, x: nibble)
    requires WellFormed(s) && s.v[x] < 16
    requires s.mem[FONTSET_START_ADDRESS .. FONTSET_START_ADDRESS + FONTSET_SIZE] == FONTSET
    ensures var i := FontAddress(s, x).index as int;
      FONTSET_START_ADDRESS <= i && i + 5 <= FONTSET_START_ADDRESS + FONTSET_SIZE &&
      s.mem[i .. i + 5] == FONTSET[5 * s.v[x] .. 5 * s.v[x] + 5]
  {
    var d := s.v[x] as int;
    var i := FONTSET_START_ADDRESS + 5 * d;
    var font := s.mem[FONTSET_START_ADDRESS .. FONTSET_START_ADDRESS + FONTSET_SIZE];
    var glyph, want := s.mem[i .. i + 5], FONTSET[5 * d .. 5 * d + 5];
    forall k | 0 <= k < 5 ensures glyph[k] == want[k] {
      assert font[5 * d + k] == FONTSET[5 * d + k];
    }
  }

  /** Fx33: three decimal digits that recombine to Vx, at I, I + 1, I + 2;
      no other byte of memory changes. */
  lemma BcdDigits(s: State, x: nibble)
    requires WellFormed(s) && s.index as int + 2 < MEMORY_SIZE
    ensures var r := StoreBcd(s, x);
      var i := s.index as int;
      r.status == Ok &&
      r.state.mem[i] < 10 && r.state.mem[i + 1] < 10 && r.state.mem[i + 2] < 10 &&
      100 * r.state.mem[i] + 10 * r.state.mem[i + 1] + r.state.mem[i + 2] == s.v[x] &&
      (forall a :: 0 <= a < MEMORY_SIZE && (a < i || a > i + 2) ==> r.state.mem[a] == s.mem[a]) &&
      r.state.v == s.v
  {
    var value := s.v[x] as int;
    assert value == 100 * (value / 100) + 10 * ((value / 10) % 10) + value % 10;
  }

  /** 156 is stored as 1, 5, 6. */
  lemma BcdExample(s: State)
    requires WellFormed(s) && s.index == 0x300 && s.v[2] == 156
    ensures var m := StoreBcd(s, 2).state.mem;
      m[0x300] == 1 && m[0x301] == 5 && m[0x302] == 6
  {
  }

  /** Fx33, Fx55, Fx65 with a block that runs past memory are reported. */
  lemma TransferOutOfRange(s: State, x: nibble)
    requires WellFormed(s) && s.index as int + x >= MEMORY_SIZE
    ensures StoreRegisters(s, x) == Outcome(AddressOutOfRange, s)
    ensures LoadRegisters(s, x) == Outcome(AddressOutOfRange, s)
    ensures s.index as int + 2 >= MEMORY_SIZE ==> StoreBcd(s, x) == Outcome(AddressOutOfRange, s)
  {
  }

  /** Fx55 copies V0..Vx to I..I + x; memory elsewhere and every register
      stay as they were. */
  lemma StoreRegistersCopies(s: State, x: nibble)
    requires WellFormed(s) && s.index as int + x < MEMORY_SIZE
    ensures var r := StoreRegisters(s, x);
      var i := s.index as int;
      r.status == Ok && r.state.v == s.v && r.state.index == s.index &&
      (forall j :: 0 <= j <= x ==> r.state.mem[i + j] == s.v[j]) &&
      (forall a :: 0 <= a < MEMORY_SIZE && (a < i || a > i + x) ==> r.state.mem[a] == s.mem[a])
  {
  }

  /** Fx65 copies I..I + x to V0..Vx; the higher registers and memory stay. */
  lemma LoadRegistersCopies(s: State, x: nibble)
    requires WellFormed(s) && s.index as int + x < MEMORY_SIZE
    ensures var r := LoadRegisters(s, x);
      var i := s.index as int;
      r.status == Ok && r.state.mem == s.mem && r.state.index == s.index &&
      (forall j :: 0 <= j <= x ==> r.state.v[j] == s.mem[i + j]) &&
      (forall j :: x < j < REGISTER_COUNT ==> r.state.v[j] == s.v[j])
  {
  }

  /** Fx55 then, after any change to the registers that leaves memory and I
      alone, Fx65 with the same x brings V0..Vx back. */
  lemma StoreThenLoad(s: State, t: State, x: nibble)
    requires WellFormed(s) && WellFormed(t) && s.index as int + x < MEMORY_SIZE
    requires t.mem == StoreRegisters(s, x).state.mem && t.index == s.index
    ensures var r := LoadRegisters(t, x);
      r.status == Ok &&
      (forall j :: 0 <= j <= x ==> r.state.v[j] == s.v[j]) &&
      (forall j :: x < j < REGISTER_COUNT ==> r.state.v[j] == t.v[j])
  {
    StoreRegistersCopies(s, x);
    LoadRegistersCopies(t, x);
  }

  // ---------------------------------------------------------------------
  // Construction and loading (src/chip8.cpp:31-38, 96-111)

  /** The start state: the font at 0x50, pc at 0x200, all else clear. */
  lemma InitialState()
    ensures var s := Initial();
      s.pc == START_ADDRESS && s.sp == 0 && s.index == 0 &&
      s.mem[FONTSET_START_ADDRESS .. FONTSET_START_ADDRESS + FONTSET_SIZE] == FONTSET &&
      (forall a :: 0 <= a < FONTSET_START_ADDRESS ==> s.mem[a] == 0) &&
      (forall a :: FONTSET_START_ADDRESS + FONTSET_SIZE <= a < MEMORY_SIZE ==> s.mem[a] == 0) &&
      (forall j :: 0 <= j < REGISTER_COUNT ==> s.v[j] == 0) &&
      (forall j :: 0 <= j < STACK_DEPTH ==> s.stack[j] == 0) &&
      (forall k :: 0 <= k < KEY_COUNT ==> s.keypad[k] == 0) &&
      (forall p :: 0 <= p < VIDEO_SIZE ==> s.video[p] == 0) &&
      s.delay == 0 && s.sound == 0 && s.opcode == 0 &&
      IsBinary(s.video)
  {
    var s := Initial();
    assert forall k :: 0 <= k < FONTSET_SIZE ==>
      s.mem[FONTSET_START_ADDRESS .. FONTSET_START_ADDRESS + FONTSET_SIZE][k] == FONTSET[k];
  }

  /** An image fits exactly when it is at most 4096 - 0x200 = 3584 bytes;
      it then lands at 0x200 and nothing else in memory changes. */
  lemma LoadImagePlaces(s: State, rom: seq<u8>)
    requires WellFormed(s)
    ensures LoadImage(s, rom).status == Ok <==> |rom| <= 3584
    ensures LoadImage(s, rom).status != Ok ==> LoadImage(s, rom).state == s
    ensures var r := LoadImage(s, rom).state;
      |rom| <= 3584 ==>
        (forall j :: 0 <= j < |rom| ==> r.mem[START_ADDRESS + j] == rom[j]) &&
        (forall a :: 0 <= a < MEMORY_SIZE && (a < START_ADDRESS || a >= START_ADDRESS + |rom|) ==>
          r.mem[a] == s.mem[a]) &&
        r.pc == s.pc && r.v == s.v
  {
    if |rom| <= 3584 {
      var m := LoadImage(s, rom).state.mem;
      assert m == s.mem[..START_ADDRESS] + rom + s.mem[START_ADDRESS + |rom|..];
      forall j | 0 <= j < |rom| ensures m[START_ADDRESS + j] == rom[j] {
      }
      forall a | 0 <= a < MEMORY_SIZE && (a < START_ADDRESS || a >= START_ADDRESS + |rom|)
        ensures m[a] == s.mem[a]
      {
      }
    }
  }

  /** Loading an image into a fresh interpreter keeps the font. */
  lemma LoadKeepsFont(rom: seq<u8>)
    requires |rom| <= 3584
    ensures LoadImage(Initial(), rom).state.mem[FONTSET_START_ADDRESS .. FONTSET_START_ADDRESS + FONTSET_SIZE] == FONTSET
  {
    InitialState();
    LoadImagePlaces(Initial(), rom);
    var m := LoadImage(Initial(), rom).state.mem;
    forall a | FONTSET_START_ADDRESS <= a < FONTSET_START_ADDRESS + FONTSET_SIZE
      ensures m[a] == Initial().mem[a]
    {
    }
  }

  // ---------------------------------------------------------------------
  // The screen (src/chip8.cpp:144-147, 342-371)

  /** No cycle ever leaves a pixel half lit. */
  lemma StepKeepsBinary(s: State, rand: u8)
    requires WellFormed(s) && IsBinary(s.video)
    ensures IsBinary(Step(s, rand).state.video)
  {
    if s.pc as int + 1 < MEMORY_SIZE {
      var w := WordAt(s.mem, s.pc);
      var t := s.(opcode := w, pc := Wrap16(s.pc as int + 2));
      var i := Decode(w);
      if i.Drw? && !(i.n > 0 && t.index as int + i.n > MEMORY_SIZE) {
        DrawKeepsBinary(t.video, SpriteAt(t, i.n), t.v[i.x] % DISPLAY_WIDTH, t.v[i.y] % DISPLAY_HEIGHT);
      }
    }
  }

  /** Dxyn toggles exactly the pixels under set sprite bits, and VF reports
      whether one of them was on. */
  lemma DrawFlagsCollision(s: State, x: nibble, y: nibble, n: nibble)
    requires WellFormed(s) && (n == 0 || s.index as int + n <= MEMORY_SIZE)
    ensures var r := DrawAt(s, x, y, n);
      var sprite, x0, y0 := SpriteAt(s, n), s.v[x] % DISPLAY_WIDTH, s.v[y] % DISPLAY_HEIGHT;
      r.status == Ok &&
      (forall p :: 0 <= p < VIDEO_SIZE ==>
        r.state.video[p] == if Covers(sprite, x0, y0, p) then Toggle(s.video[p]) else s.video[p]) &&
      (r.state.v[VF] == 1 <==>
        exists p :: 0 <= p < VIDEO_SIZE && Covers(sprite, x0, y0, p) && s.video[p] == PIXEL_ON) &&
      r.state.v[VF] <= 1
  {
    DrawSpritePixels(s.video, SpriteAt(s, n), s.v[x] % DISPLAY_WIDTH, s.v[y] % DISPLAY_HEIGHT);
  }

  /** Running the same Dxyn twice (with x and y other than VF, so the
      position does not move) restores the screen. */
  lemma DrawTwice(s: State, x: nibble, y: nibble, n: nibble, rand: u8)
    requires WellFormed(s) && x != VF && y != VF
    requires n == 0 || s.index as int + n <= MEMORY_SIZE
    ensures var r := Exec(Exec(s, Drw(x, y, n), rand).state, Drw(x, y, n), rand);
      r.status == Ok && r.state.video == s.video
  {
    var t := DrawAt(s, x, y, n).state;
    assert SpriteAt(t, n) == SpriteAt(s, n);
    DrawTwiceRestores(s.video, SpriteAt(s, n), s.v[x] % DISPLAY_WIDTH, s.v[y] % DISPLAY_HEIGHT);
  }
}
