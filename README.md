# CHIP-8 interpreter core in Dafny

This project models the `Chip8` interpreter class (`headers/chip8.h`,
`src/chip8.cpp`) and proves properties of it:

- its 4 KiB memory with the font at 0x50 and programs at 0x200;
- sixteen 8-bit registers with VF as the flag;
- the 16-bit index register and program counter;
- a 16-entry call stack;
- the delay and sound timers;
- the 16-key keypad;
- the 64x32 framebuffer of 32-bit pixels;
- the fetch-decode-execute `Cycle` with its 34 opcode handlers.

The model has six modules, one per file:

- `Word` (word.dfy): the C++ fixed-width unsigned types and their
  wrap-around.
- `Instructions` (instructions.dfy): the decoded instruction (`Instr`). It
  also holds `Decode`, which is the source's dispatch through
  tables of member functions, with the same masks except in family F: there
  `Decode` dispatches on the low byte (`& 0x00FF`) where the code uses the low
  nibble (`& 0x000F`, see "Findings"). `Encode` is the
  partner of `Decode`, and `DecodeAsWritten` is the family-F dispatch exactly
  as the code does it.
- `Display` (display.dfy): the specification of Dxyn's two drawing loops
  (`DrawSteps`, `DrawSprite`) and what a draw does to every pixel and to the
  flag. `DrawStepsAsWritten` is the draw as the code does it, except that it skips
  indices of 2048 or more where the code would write past `video`.
- `Semantics` (semantics.dfy): the whole interpreter as a value (`State`) and
  one function per handler. `Exec` is the dispatch, `Step` is one `Cycle`,
  `Initial` is the constructor and `LoadImage` is the copy loop of `LoadROM`.
- `Properties` (properties.dfy): what these functions promise (flags, carries
  and borrows, skips, calls and returns, transfers, the keypad wait, loading,
  the screen), each stated as a lemma.
- `Machine` (machine.dfy): the imperative class `Chip8`.
  - The fields are arrays updated in place, as in the header.
  - There is one method per handler, with the dispatch methods and `Cycle`.
  - The ghost function `Abs` views the object as a `Semantics.State`.
  - Every method is proved to leave the object in exactly the state that its
    `Semantics` function describes. Everything `Properties` proves therefore
    holds of the object.

The pure `Semantics` and `Display` functions promise by their own `ensures`
only that the state stays well-formed. What they compute is stated by the
lemmas about them, and those lemmas are the rows below. The `Machine` methods
state `Abs() == F(old(Abs()))` for their function `F` and the status it
reports.

Most indices the code leaves unchecked become a reported status (see
"Left out"):

- `memory[pc + 1]`, `memory[I + …]`, `stack[sp]` and `keypad[Vx]`, since the
  source never checks any of these indices;
- an image longer than the program area.

There are two exceptions, where the model reports nothing:

- a Dxyn pixel index `video[…]` of 2048 or more is skipped silently;
- slot F of table0, table8 and tableE decodes as the empty handler.

## Model

| member | source | states |
|---|---|---|
| `Word.Wrap8` | src/chip8.cpp:213 | A store into a `uint8_t` keeps a value in range unchanged and adds 256 to a value in -256..-1. |
| `Word.Wrap16` | src/chip8.cpp:118 | A store into a `uint16_t` keeps a value in range unchanged, subtracts 65536 from one in the next block, and adds 65536 to a small negative one. |
| `Instructions.Decode` | src/chip8.cpp:121-140 | Its own contract states only that family D, and nothing else, decodes to Dxyn with the masked `x`, `y` and `n`. What it computes for every other word is stated by `Instructions.DecodeMasks`, `Instructions.DecodeFamilies`, `Instructions.DecodeFilledSlots`, `Instructions.DecodeFieldsOfFields` and `Instructions.DecodeEncode`. |
| `Instructions.DecodeAsWritten` | src/chip8.cpp:140 | Its own contract states that outside family F it agrees with `Decode`, and that in family F it reaches only Fx07, Fx0A or the empty handler. The Findings lemmas `FamilyFAsWrittenUnreachable` and `FamilyFAsWrittenAliases` state what this costs. |
| `Instructions.Word4` | src/chip8.cpp:134-140 | The four masks `& 0xF000 >> 12`, `& 0x0F00 >> 8`, `& 0x00F0 >> 4` and `& 0x000F` recover each nibble of a word built from four nibbles. |
| `Instructions.NibblesOfWord` | src/chip8.cpp:173-174 | On the arithmetic value `f*0x1000 + x*0x100 + y*0x10 + n`, each mask gives back its own nibble. |
| `Instructions.FieldsOfWord` | src/chip8.cpp:157 | `opcode & 0x00FF` is the `y n` nibbles, and `opcode & 0x0FFF` is the `x y n` nibbles. |
| `Instructions.DecodeMasks` | src/chip8.cpp:42-93 | The selection in the families that look at only part of the word. Family 0 (00E0 and 00EE) and family E (Ex9E and ExA1) look only at the low nibble, and every other low nibble there reaches the empty handler. 5xy? and 9xy? ignore the low nibble. table8 slots 8-D and slot F of table0, table8 and tableE are empty. Family F reaches the empty handler for every low byte outside 07, 0A, 15, 18, 1E, 29, 33, 55 and 65. The operands of 5xy0, 9xy0, Dxyn, Ex9E, ExA1 and of every instruction with a `kk` or `nnn` field are the masked fields of the word. |
| `Instructions.DecodeFamilies` | src/chip8.cpp:42-93 | Families 1, 2, 3, 4, 6, 7, A, B and C each reach exactly one handler (1nnn, 2nnn, 3xkk, 4xkk, 6xkk, 7xkk, Annn, Bnnn, Cxkk), whatever the low bits. Every table8 handler takes `x` and `y`, and every tableF handler takes `x`, from the masked fields. |
| `Instructions.WordOfFields` | src/chip8.cpp:134-140 | Every word is rebuilt from its four masked nibbles. |
| `Instructions.DecodeFilledSlots` | src/chip8.cpp:42-93 | A word that reaches a filled slot of table8 (0-7 and E) or tableF (the nine listed low bytes), or any word of families 1-4, 6, 7 and A-D, is exactly the canonical word of what it decodes to, so `Decode` inverts `Encode` on those words too. Low nibble E of family 8 is 8xyE with the masked `x` and `y`. |
| `Instructions.DecodeFieldsOfFields` | src/chip8.cpp:42-93 | The nibble dispatch sends each instruction's canonical nibbles to exactly that instruction. |
| `Instructions.DecodeEncode` | src/chip8.cpp:121-140 | Decoding inverts encoding: every one of the 35 instructions (including the empty slot) has a word that reaches exactly that handler with exactly those operands. |
| `Instructions.FamilyFAsWrittenUnreachable` | src/chip8.cpp:140 | With the code's low-nibble family-F lookup, the canonical words of Fx15, Fx18, Fx1E, Fx29, Fx33, Fx55 and Fx65 reach the empty handler, while `Decode` reaches each of them. |
| `Instructions.FamilyFAsWrittenAliases` | src/chip8.cpp:85-93 | As written, 0xF017 reads the delay timer into V0; dispatched on the low byte it is the empty handler. |
| `Display.DrawSteps` | src/chip8.cpp:354-370 | Its own contract states only that the framebuffer keeps its 2048 pixels. What the first k passes of the row and column loops do is stated by `Display.DrawStepsVideo` and `Display.DrawStepsCollision`. |
| `Display.DrawSprite` | src/chip8.cpp:342-371 | Its own contract states only that the framebuffer keeps its 2048 pixels. What a whole draw does is stated by `Display.DrawSpritePixels`, `Display.DrawTwiceRestores` and `Display.DrawOnBlank`. |
| `Display.DrawStepsAsWritten` | src/chip8.cpp:362-367 | Its own contract states only that the framebuffer keeps its 2048 pixels. `Display.AsWrittenNeverLights` and `Display.AsWrittenCounterexample` state what the code's loop body does. |
| `Display.Blank` | src/chip8.cpp:146 | The cleared framebuffer has 2048 pixels, all 0. |
| `Display.PixelIndex` | src/chip8.cpp:359-360 | Pixel (row, col) of a sprite at (x, y) is at index `(y + row) * 64 + (x + col)`, which is the top-left offset plus `row * 64 + col`. |
| `Display.DrawStepsVideo` | src/chip8.cpp:354-370 | After the first k passes of the row and column loops, exactly the pixels covered by a set bit of those passes are toggled. All others are unchanged. |
| `Display.DrawStepsCollision` | src/chip8.cpp:352-367 | After k passes, the collision flag is set exactly when a pixel covered by those passes was on beforehand. |
| `Display.DrawSpritePixels` | src/chip8.cpp:342-371 | Drawing a whole sprite toggles exactly the covered pixels. The flag is set if and only if some covered pixel was on. |
| `Display.DrawClearsCollisions` | src/chip8.cpp:362-367 | A lit pixel under a set sprite bit goes off, and the flag is set. |
| `Display.DrawKeepsBinary` | src/chip8.cpp:366 | Toggling by `^= 0xFFFFFFFF` keeps every pixel either 0 or 0xFFFFFFFF. |
| `Display.DrawTwiceRestores` | src/chip8.cpp:342-371 | Drawing the same sprite at the same place twice restores the framebuffer. |
| `Display.DrawOnBlank` | src/chip8.cpp:342-371 | On a blank screen, a draw lights exactly the covered pixels and reports no collision. A second identical draw reports a collision if and only if some set bit landed inside the framebuffer. |
| `Display.RightEdgeWraps` | src/chip8.cpp:359-360 | A set bit past the right edge lands at the start of the next row. Byte 0x01 drawn at (60, 0) lights pixel 67. |
| `Display.BottomRowsDropped` | src/chip8.cpp:354-360 | A row whose index runs past the framebuffer is not drawn. Two rows of 0x80 at (0, 31) light only pixel 1984. |
| `Display.AsWrittenNeverLights` | src/chip8.cpp:362-367 | With the XOR inside the collision test, as written, no draw ever turns a pixel on. |
| `Display.AsWrittenCounterexample` | src/chip8.cpp:362-367 | Sprite 0x80 at (0, 0) on a blank screen: as written, pixel 0 stays off. The corrected draw lights it. |
| `Semantics.FirstPressed` | src/chip8.cpp:402-436 | The if-chain over the keypad. The result is the lowest pressed key at or above the start, and it is None exactly when no such key is down. |
| `Semantics.Exec` | src/chip8.cpp:121-140 | Dispatching one decoded instruction keeps the state well-formed. A faulting instruction leaves the state unchanged. The only statuses are Ok, AddressOutOfRange, StackOverflow and StackUnderflow. |
| `Semantics.Initial` | src/chip8.cpp:31-38 | Its own contract states only that the start state is well-formed. `Properties.InitialState` states its contents. |
| `Semantics.LoadImage` | src/chip8.cpp:105-107 | Its own contract states only that the result is well-formed. `Properties.LoadImagePlaces` and `Properties.LoadKeepsFont` state what a load does. |
| `Semantics.Step` | src/chip8.cpp:113-132 | Its own contract states only that one cycle keeps the state well-formed. Lemmas about `Step` state the fetch, the pc advance, the timer tick, the empty handler, the skips, call and return, the Fx0A wait and that pixels stay binary (`Properties.StepFetchOutOfRange`, `StepRecordsOpcode`, `StepAdvancesPc`, `StepTicksTimers`, `StepNop`, `StepSkips`, `CallThenReturn`, `WaitKeyRepeats`, `StepKeepsBinary`). The effect of every other handler is stated by lemmas about that handler's own `Semantics` function (`AddRegs`, `StoreBcd` and so on), which `Step` applies through `Exec`. |
| `Properties.StepFetchOutOfRange` | src/chip8.cpp:115 | A fetch whose second byte lies past memory (`pc + 1 >= 4096`) is reported and changes nothing. |
| `Properties.StepRecordsOpcode` | src/chip8.cpp:115 | Every cycle that fetches stores the big-endian word `memory[pc] * 256 + memory[pc + 1]` as the opcode, whatever the handler does. |
| `Properties.StepAdvancesPc` | src/chip8.cpp:118 | A completed instruction that does not jump, call, return, skip or wait leaves pc two bytes further on. |
| `Properties.StepTicksTimers` | src/chip8.cpp:123-131 | A completed cycle decrements each nonzero timer by one and leaves a zero timer at zero. The decrement happens after the handler, so a timer that Fx15 or Fx18 sets is already decremented. |
| `Properties.StepNop` | src/chip8.cpp:142 | An empty table slot only records the opcode, advances pc and ticks the timers. |
| `Properties.CallThenReturn` | src/chip8.cpp:149-169 | 2nnn followed by the 00EE at nnn resumes after the call. sp is back where it was, and registers, memory and I are unchanged. |
| `Properties.CallOnFullStack` | src/chip8.cpp:166 | A call with all 16 stack slots in use is refused with StackOverflow, and nothing changes. |
| `Properties.ReturnOnEmptyStack` | src/chip8.cpp:151-152 | A return with sp == 0 is refused with StackUnderflow, and nothing changes. |
| `Properties.AddCarry` | src/chip8.cpp:248-262 | For 8xy4 with x ≠ F, `Vx + 256 * VF` is the full sum. VF is 1 exactly when the sum exceeds 255. No other register changes. |
| `Properties.AddIntoFlag` | src/chip8.cpp:256-261 | For 8Fy4, the sum overwrites the carry just written, because VF is written first. |
| `Properties.SubBorrow` | src/chip8.cpp:264-276 | For 8xy5 with x, y ≠ F, Vx becomes `Vx - Vy` mod 256. VF is 1 exactly when Vx > Vy (strictly). No other register changes. |
| `Properties.SubReadsNewFlag` | src/chip8.cpp:270-275 | For 8xF5, the subtrahend is the flag just written, not the old VF. |
| `Properties.SubnBorrow` | src/chip8.cpp:288-300 | For 8xy7 with x, y ≠ F, Vx becomes `Vy - Vx` mod 256. VF is 1 exactly when Vy > Vx. No other register changes. |
| `Properties.ShiftRightBit` | src/chip8.cpp:278-286 | For 8xy6 with x ≠ F, `2 * Vx' + VF == Vx`, with VF the bit shifted out. The registers other than Vx and VF are unchanged. |
| `Properties.ShiftLeftBit` | src/chip8.cpp:302-309 | For 8xyE with x ≠ F, `Vx' + 256 * VF == 2 * Vx`, with VF the top bit and Vx' even. The registers other than Vx and VF are unchanged. |
| `Properties.AddThenSub` | src/chip8.cpp:248-276 | For x ≠ y, both other than VF, 8xy4 followed by 8xy5 restores Vx. |
| `Properties.AddExample` | src/chip8.cpp:254-261 | 200 + 100 gives 44, with VF = 1. |
| `Properties.SubExample` | src/chip8.cpp:270-275 | 5 - 10 gives 251, with VF = 0. |
| `Properties.AddImmNoCarry` | src/chip8.cpp:209-214 | 7xkk wraps modulo 256 (250 + 10 gives 4) and leaves VF alone. |
| `Properties.JumpOffsetPastMemory` | src/chip8.cpp:327-332 | Bnnn sets pc to `V0 + nnn`, which is at most 0x10FE. From 4095 upward, the next fetch is reported. |
| `Properties.AddIndexWraps` | src/chip8.cpp:451-455 | Fx1E adds Vx to I modulo 65536 and sets no flag. |
| `Properties.StepSkips` | src/chip8.cpp:171-199 | 3xkk, 4xkk, 5xy0, 9xy0, Ex9E and ExA1 move pc four bytes on exactly when their condition holds, and two bytes otherwise. Registers, memory, I, sp and the screen are unchanged. |
| `Properties.KeySkipOutOfRange` | src/chip8.cpp:376-388 | Ex9E and ExA1 with a key number of 16 or more (past `keypad`) are reported, and nothing changes. |
| `Properties.WaitKeyLowest` | src/chip8.cpp:399-433 | Fx0A stores the lowest key that is down. |
| `Properties.WaitKeyRepeats` | src/chip8.cpp:434-436 | With no key down, the cycle that runs Fx0A leaves pc on Fx0A again. Registers, memory and the screen are unchanged. |
| `Properties.FontAddressGlyph` | src/chip8.cpp:457-462 | Fx29 with a digit 0-F points I at that digit's five-byte glyph inside the font. |
| `Properties.BcdDigits` | src/chip8.cpp:464-475 | Fx33 writes three decimal digits at I, I+1 and I+2 that recombine to Vx. No other byte of memory changes. |
| `Properties.BcdExample` | src/chip8.cpp:464-475 | 156 is stored as 1, 5, 6. |
| `Properties.TransferOutOfRange` | src/chip8.cpp:468-488 | Fx33, Fx55 and Fx65 whose block runs past memory are reported, and nothing changes. |
| `Properties.StoreRegistersCopies` | src/chip8.cpp:477-483 | Fx55 copies V0..Vx to I..I+x. The rest of memory, I and the registers are unchanged. |
| `Properties.LoadRegistersCopies` | src/chip8.cpp:485-490 | Fx65 copies I..I+x to V0..Vx. The higher registers, memory and I are unchanged. |
| `Properties.StoreThenLoad` | src/chip8.cpp:477-490 | Fx55 and then, with memory and I unchanged, Fx65 with the same x brings V0..Vx back. |
| `Properties.InitialState` | src/chip8.cpp:31-38 | After construction the font is at 0x50..0x9F, memory elsewhere is zero, and pc is 0x200. sp, I, the opcode, both timers, all registers, the whole stack, the keypad and every pixel are 0. |
| `Properties.LoadImagePlaces` | src/chip8.cpp:105-107 | An image is accepted if and only if it has at most 3584 bytes. It then lands at 0x200, and no other byte, pc or register changes. A refused image changes nothing. |
| `Properties.LoadKeepsFont` | src/chip8.cpp:31-38 | Loading an image into a fresh interpreter keeps the font. |
| `Properties.StepKeepsBinary` | src/chip8.cpp:113-132 | No cycle ever leaves a pixel other than 0 or 0xFFFFFFFF, whichever handler runs, 00E0 (src/chip8.cpp:144-147) and Dxyn (src/chip8.cpp:342-371) included. |
| `Properties.DrawFlagsCollision` | src/chip8.cpp:342-371 | Dxyn toggles exactly the pixels under set bits at (Vx mod 64, Vy mod 32). VF is 1 if and only if one of them was on, and 0 otherwise. |
| `Properties.DrawTwice` | src/chip8.cpp:342-371 | Running the same Dxyn twice (x and y other than VF) restores the screen. |
| `Machine.Chip8.Abs` | headers/chip8.h:17-18 | The object's fields form a well-formed state with the array sizes of headers/chip8.h:5-10. |
| `Machine.Chip8.FontMemory` | src/chip8.cpp:36-38 | The font copy loop yields exactly the initial memory, with the font at 0x50 and zero elsewhere. |
| `Machine.Chip8.constructor` | src/chip8.cpp:31-38 | A new object is in the state `Initial`. |
| `Machine.Chip8.Load` | src/chip8.cpp:105-107 | The copy loop leaves memory as `LoadImage` describes and reports its status. |
| `Machine.Chip8.Cycle` | src/chip8.cpp:113-132 | One cycle (fetch, `pc += 2`, dispatch, timers) leaves the object in the state `Step` describes and reports its status. |
| `Machine.Chip8.Fetch` | src/chip8.cpp:115-118 | The opcode becomes the word at pc, and pc advances by 2 modulo 65536. |
| `Machine.Chip8.DecrementTimers` | src/chip8.cpp:123-131 | Each nonzero timer drops by one. |
| `Machine.Chip8.Execute` | src/chip8.cpp:121 | Dispatching a decoded instruction has the effect `Exec` describes. |
| `Machine.Chip8.ExecuteFlow` | src/chip8.cpp:42-57 | Families 0-5, 9, A and B through `table` and `table0` have the effect `Semantics.ExecFlow` describes. |
| `Machine.Chip8.ExecuteImmediate` | src/chip8.cpp:48-54 | 6xkk, 7xkk and Cxkk have the effect `Semantics.ExecImmediate` describes. |
| `Machine.Chip8.ExecuteTable8` | src/chip8.cpp:136 | The `table8` handlers have the effect `Semantics.ExecTable8` describes. |
| `Machine.Chip8.ExecuteDrawKeys` | src/chip8.cpp:138 | Dxyn and the `tableE` handlers have the effect `Semantics.ExecDrawKeys` describes. |
| `Machine.Chip8.ExecuteTableF` | src/chip8.cpp:140 | The `tableF` handlers, selected by the low byte, have the effect `Semantics.ExecTableF` describes. |
| `Machine.Chip8.Op00E0` | src/chip8.cpp:144-147 | Every pixel becomes 0. |
| `Machine.Chip8.Op00EE` | src/chip8.cpp:149-153 | `--sp; pc = stack[sp]`, or StackUnderflow with no change. |
| `Machine.Chip8.Op1nnn` | src/chip8.cpp:155-160 | pc becomes nnn. |
| `Machine.Chip8.Op2nnn` | src/chip8.cpp:162-169 | pc is pushed and pc becomes nnn, or StackOverflow with no change. |
| `Machine.Chip8.Op3xkk` | src/chip8.cpp:171-179 | If Vx == kk, pc advances by 2. |
| `Machine.Chip8.Op4xkk` | src/chip8.cpp:181-189 | If Vx != kk, pc advances by 2. |
| `Machine.Chip8.Op5xy0` | src/chip8.cpp:191-199 | If Vx == Vy, pc advances by 2. |
| `Machine.Chip8.Op9xy0` | src/chip8.cpp:311-318 | If Vx != Vy, pc advances by 2. |
| `Machine.Chip8.OpAnnn` | src/chip8.cpp:320-325 | I becomes nnn. |
| `Machine.Chip8.OpBnnn` | src/chip8.cpp:327-332 | pc becomes V0 + nnn. |
| `Machine.Chip8.Op6xkk` | src/chip8.cpp:201-207 | Vx becomes kk. |
| `Machine.Chip8.Op7xkk` | src/chip8.cpp:209-214 | Vx becomes Vx + kk mod 256. |
| `Machine.Chip8.Op8xy0` | src/chip8.cpp:216-222 | Vx becomes Vy. |
| `Machine.Chip8.Op8xy1` | src/chip8.cpp:224-230 | Vx becomes Vx OR Vy. |
| `Machine.Chip8.Op8xy2` | src/chip8.cpp:232-238 | Vx becomes Vx AND Vy. |
| `Machine.Chip8.Op8xy3` | src/chip8.cpp:240-246 | Vx becomes Vx XOR Vy. |
| `Machine.Chip8.Op8xy4` | src/chip8.cpp:248-262 | The registers become `AddRegs`: the carry into VF, then the sum into Vx. |
| `Machine.Chip8.Op8xy5` | src/chip8.cpp:264-276 | The registers become `SubRegs`: the no-borrow flag into VF, then `Vx -= Vy`. |
| `Machine.Chip8.Op8xy6` | src/chip8.cpp:278-286 | The registers become `ShiftRight`: the low bit into VF, then `Vx >>= 1`. |
| `Machine.Chip8.Op8xy7` | src/chip8.cpp:288-300 | The registers become `SubRevRegs`: the flag into VF, then `Vx = Vy - Vx`. |
| `Machine.Chip8.Op8xyE` | src/chip8.cpp:302-309 | The registers become `ShiftLeft`: the top bit into VF, then `Vx <<= 1`. |
| `Machine.Chip8.OpCxkk` | src/chip8.cpp:334-340 | Vx becomes the random byte AND kk. |
| `Machine.Chip8.OpDxyn` | src/chip8.cpp:342-371 | VF is set to 0 and the sprite is drawn, leaving the object as `DrawAt` describes. A sprite read past memory is reported with no change. |
| `Machine.Chip8.DrawRows` | src/chip8.cpp:354-356 | The row loop, reading row r of the sprite from `memory[I + r]`, completes every pass of `DrawSteps`. |
| `Machine.Chip8.DrawRow` | src/chip8.cpp:357-369 | The column loop completes the eight passes of one row. |
| `Machine.Chip8.DrawPass` | src/chip8.cpp:358-368 | One loop body: toggle the pixel under a set bit, and raise VF if it was on. |
| `Machine.Chip8.OpEx9E` | src/chip8.cpp:373-381 | If key Vx is down, pc advances by 2. A key number of 16 or more is reported. |
| `Machine.Chip8.OpExA1` | src/chip8.cpp:383-391 | If key Vx is up, pc advances by 2. A key number of 16 or more is reported. |
| `Machine.Chip8.OpFx07` | src/chip8.cpp:393-397 | Vx becomes the delay timer. |
| `Machine.Chip8.OpFx0A` | src/chip8.cpp:399-437 | Vx becomes the lowest key that is down. If no key is down, pc moves back by 2. |
| `Machine.Chip8.OpFx15` | src/chip8.cpp:439-443 | The delay timer becomes Vx. |
| `Machine.Chip8.OpFx18` | src/chip8.cpp:445-449 | The sound timer becomes Vx. |
| `Machine.Chip8.OpFx1E` | src/chip8.cpp:451-455 | I becomes I + Vx mod 65536. |
| `Machine.Chip8.OpFx29` | src/chip8.cpp:457-462 | I becomes 0x50 + 5 * Vx. |
| `Machine.Chip8.OpFx33` | src/chip8.cpp:464-475 | The ones, tens and hundreds of Vx go to I+2, I+1 and I. A block past memory is reported. |
| `Machine.Chip8.OpFx55` | src/chip8.cpp:477-483 | The loop stores V0..Vx at I..I+x. A block past memory is reported. |
| `Machine.Chip8.OpFx65` | src/chip8.cpp:485-490 | The loop loads V0..Vx from I..I+x. A block past memory is reported. |

## Left out

- LoadROM's file handling (src/chip8.cpp:97-103, 109) is not modelled. The
  image bytes are the parameter of `Load`, and a file that does not open
  corresponds to not calling it.
- `Machine.Chip8.Load` refuses an image longer than 3584 bytes with
  ImageTooLarge and leaves memory unchanged. The code would write such an
  image past the end of `memory`, which is undefined behaviour.
- The random engine, seeded from the system clock (src/chip8.cpp:32, 40,
  339), is not modelled. The byte it would draw is the `rand` parameter of
  `Cycle`.
- The tables of member functions (src/chip8.cpp:42-93) are not
  modelled as data. They are the function `Instructions.Decode`, which
  selects the same handler for every word, with two exceptions: the
  family-F finding below, and slot F of table0, table8 and tableE, which the
  model decodes as the empty handler where the code reads past the array.
- The host is outside the model. No method writes `keypad`, and nothing
  renders `video`.
- Unchecked indices are reported before the handler changes anything, with
  the status AddressOutOfRange, StackOverflow or StackUnderflow. The code
  would read or write outside the array (undefined behaviour), or, for Dxyn,
  draw the rows before the bad one. These indices are:
  - `memory[pc + 1]` at fetch;
  - `stack[sp]` in 2nnn and in 00EE;
  - `memory[I + row]` in Dxyn;
  - `keypad[Vx]` in Ex9E and ExA1 with Vx >= 16;
  - `memory[I + …]` in Fx33, Fx55 and Fx65.
- A cycle whose instruction faults does not tick the timers. The code has no
  fault to stop on.
- Slot F of table0, table8 and tableE lies past those 15-entry arrays
  (headers/chip8.h:74-76), which is undefined behaviour in the code. The
  model decodes it as the empty handler.
- `Machine.Chip8.DrawPass` skips a set sprite bit whose linear index
  `(y + row) * 64 + (x + col)` is 2048 or more, so nothing is drawn past
  `video`. The code would write past the array (undefined behaviour); the
  model does not report this as a fault.
- In Dxyn, a column past the right edge lands at the start of the next row
  (`Display.RightEdgeWraps`), and a row past the bottom edge is dropped
  (`Display.BottomRowsDropped`). CHIP-8 references differ on what happens at
  the edges (wrapping to the opposite side or clipping), and neither matches
  this code. The model keeps the code's linear index
  `(y + row) * 64 + (x + col)`.
- In 8xy4-8xyE, VF is written before Vx, as in the code, so with x = F the
  result overwrites the flag (`Properties.AddIntoFlag`).
- Concurrency, timing at 60 Hz and audio are not modelled; the source has
  none of them in its core.

## Findings

| source | as written | input that shows it | evidently intended | confidence | as-written member | corrected member |
|---|---|---|---|---|---|---|
| src/chip8.cpp:140 | `TableF` indexes `tableF` by `opcode & 0x000F`, while the table is filled by low byte (src/chip8.cpp:85-93), so only slots 0x07 and 0x0A are ever reached | 0xF015 (Fx15, V0 into the delay timer) reaches the empty handler; 0xF017 reads the delay timer | index `tableF` by `opcode & 0x00FF` | not executed | `Instructions.DecodeAsWritten`, `Instructions.FamilyFAsWrittenUnreachable`, `Instructions.FamilyFAsWrittenAliases` | `Instructions.Decode`, `Instructions.DecodeEncode` |
| src/chip8.cpp:362-367 | the `^= 0xFFFFFFFF` sits inside the `*screenPixel == 0xFFFFFFFF` test, so only lit pixels are toggled and no pixel is ever turned on | sprite byte 0x80 at (0, 0) on a blank screen leaves pixel 0 off | toggle every pixel under a set bit, and set VF when one of them was lit | not executed | `Display.DrawStepsAsWritten`, `Display.AsWrittenNeverLights`, `Display.AsWrittenCounterexample` | `Display.DrawSprite`, `Display.DrawSpritePixels`, `Display.DrawTwiceRestores` |
