# CHIP-8 interpreter core in Dafny

A functional model of a CHIP-8 virtual machine and of the small WebAssembly wrapper around
it. The machine (`Cpu`) holds 4 KiB of memory with the 80-byte hexadecimal font at address
0, sixteen 8-bit registers V0..VF (VF doubles as the carry, borrow and collision flag), the
16-bit index register `I`, the program counter, a sixteen-slot call stack with its pointer,
the delay and sound timers, a sixteen-key keypad, and a 64x32 monochrome screen with a
"changed" flag. One cycle clears the changed flag, fetches the big-endian opcode at `PC`,
executes it, and ticks both timers down by one without going below zero.

The model is pure: `Interpreter.Cycle(cpu, random)` returns the next machine state or a
`Fault`. The byte the source takes from `rand::random` for `Cxkk` is the `random` argument.
Every place where the source ends the process or would panic returns a fault instead:

- an undefined opcode is `IllegalOpcode`;
- a call with a full stack is `StackOverflow`, and a return with an empty one is `StackUnderflow`;
- memory read or written past 0xFFF is `MemoryOutOfRange`;
- a key test on a register holding 16 or more is `KeyOutOfRange`;
- `I + Vx` not fitting in 16 bits is `IndexOverflow`.

Modules:

- `Types`: bytes and 16-bit words as bounded integers, `Option`, `Result`, `Fault`, and the
  bitwise operations on bytes.
- `Machine`: constants, the font, the `Cpu` record and its well-formedness, creation, ROM
  load and the keypad mapping.
- `Opcode`: fetch and the nibble fields of an opcode, with an encoder that inverts them.
- `Alu`: the `8xyN` register arithmetic as written, a plain integer reference for it, and
  the BCD split of `Fx33`.
- `Sprite`: `Dxyn` drawing, which XORs a sprite onto the screen with wrap-around. It is
  modelled as the source's two nested loops, and proved equal to a closed form: which
  pixels flip, and when the collision flag is raised.
- `Interpreter`: the opcode dispatch and one cycle.
- `Properties`: per-opcode statements of the exact successor state of a cycle, plus an
  instruction table that serves as an independent description of the accepted opcodes.
- `Host`: the wrapper's ROM padding, its row-major frame buffer export, and that export's
  inverse.

Pixels are booleans. The source stores them as bytes that only ever hold 0 or 1, because
it only ever XORs them with 1.

## Model

| member | source | states |
|---|---|---|
| `Machine.New` | src/chip8.rs:43-66 | the fresh machine holds the font at 0..80, zero elsewhere in memory, zero registers, stack, `I`, timers, no key down, a blank screen, `PC` = 0x200 and the changed flag clear |
| `Machine.Blit` | src/chip8.rs:47-49 | the element-by-element copy loop puts `src[j]` at `dst[offset + j]` and leaves every other element of `dst` as it was |
| `Machine.Load` | src/chip8.rs:68-86 | after a load, the ROM occupies 0x200..0xFFF, memory below 0x200 is untouched, every other field is back to its initial value, and the changed flag is set |
| `Machine.LoadForgetsPriorState` | src/chip8.rs:68-86 | two machines that agree below 0x200 are identical after loading the same ROM, whatever their registers, stack, timers, keys or screen were |
| `Machine.LoadIdempotent` | src/chip8.rs:68-86 | loading the same ROM twice is the same as loading it once |
| `Machine.KeyIndexMatchesLayout` | src/chip8.rs:107-127 | exactly the sixteen characters of the layout `X123QWEASDZC4RFV` are mapped, and the character at position k maps to key k |
| `Machine.UpdateKeypad` | src/chip8.rs:107-127 | a mapped character sets exactly its own key to the given state and changes nothing else; any other character leaves the machine unchanged |
| `Opcode.Fetch` | src/chip8.rs:91-93 | the opcode's high byte is `memory[pc]` and its low byte is `memory[pc + 1]` |
| `Opcode.DecodeEncode` | src/chip8.rs:130-141 | the family, x, y and n fields of an encoded opcode are the nibbles it was built from; `kk` is the low byte and `nnn` the low twelve bits |
| `Opcode.EncodeDecode` | src/chip8.rs:130-141 | every 16-bit opcode is the encoding of its own four nibbles, so field extraction loses nothing |
| `Alu.ShiftArithmetic` | src/chip8.rs:239-261 | the flag values `a & 1` and `a >> 7` of the shifts are the low bit `a % 2` and the high bit `a / 128` |
| `Alu.Apply` | src/chip8.rs:209-264 | `8xyN` is defined exactly for N in 0..7 and E; it changes no register other than Vx and VF, and the bitwise forms (N <= 3) change only Vx |
| `Alu.ApplyMatchesReference` | src/chip8.rs:209-261 | whenever the flag write cannot disturb an operand (LD, OR, AND, XOR with any registers, VF included; ADD, SUB, SUBN with neither operand VF; SHR, SHL with Vx not VF, whatever y is): ADD gives (a+b) mod 256 with VF = 1 iff a+b > 255; SUB gives (a-b) mod 256 with VF = 1 iff a > b; SUBN gives (b-a) mod 256 with VF = 1 iff b > a; SHR gives a/2 with VF = a mod 2; SHL gives 2a mod 256 with VF = a/128; LD, OR, AND, XOR give their results |
| `Alu.FlagAsDestination` | src/chip8.rs:226-261 | with VF as destination, the flag is written first and then used as the left operand, so VF ends up holding the arithmetic of the flag and Vy; when Vy is VF as well, both operands are the fresh flag |
| `Alu.FlagAsSource` | src/chip8.rs:226-253 | with VF as the second operand of ADD, SUB or SUBN, the operand read is the freshly written flag, not the old VF |
| `Alu.AddWithFlagOperand` | src/chip8.rs:226-229 | `80F4` with V0 = 1 and VF = 255 leaves V0 = 2, whereas the plain sum 1 + 255 wraps to 0 |
| `Alu.Bcd` | src/chip8.rs:374-381 | three digits, each below 10, with 100·d0 + 10·d1 + d2 equal to the value |
| `Sprite.DrawLine` | src/chip8.rs:303-311 | the column loop over one sprite row keeps the screen row's width |
| `Sprite.DrawLineSpec` | src/chip8.rs:303-311 | the column loop flips exactly the pixels that a set bit of the row lands on (column (Vx + c) mod 64, most significant bit first), and reports a hit iff one of them was lit |
| `Sprite.DrawRows` | src/chip8.rs:300-312 | the row loop keeps the screen 64x32 |
| `Sprite.DrawRowsPixels` | src/chip8.rs:300-312 | after rows `row..n-1`, each pixel has flipped iff a set bit of one of those rows landed on it, with row r landing on screen row (Vy + r) mod 32; every other pixel is unchanged |
| `Sprite.DrawRowsCollision` | src/chip8.rs:299-312 | the flag after the row loop is set iff it was set before or some set sprite bit of rows `row..n-1` landed on a pixel that was lit before the draw |
| `Sprite.Draw` | src/chip8.rs:295-314 | `Dxyn` on the screen: pixel (x, y) flips iff some set sprite bit lands on it, and the collision result holds iff some set bit lands on a pixel lit before the draw |
| `Sprite.DrawTwiceRestores` | src/chip8.rs:295-314 | drawing the same sprite twice at the same place restores the screen; the second draw collides iff some set bit landed on a pixel that was unlit before the first draw |
| `Sprite.DrawOnBlankScreen` | src/chip8.rs:295-314 | on a blank screen a draw never collides and lights exactly the covered pixels; drawing it again collides iff the sprite has a set bit |
| `Interpreter.FirstPressed` | src/chip8.rs:344-350 | the search returns the lowest pressed key, or nothing exactly when no key is pressed |
| `Interpreter.SystemArm` | src/chip8.rs:143-156 | the `0` family arms keep the machine well-formed; an opcode whose low nibble is neither 0 (CLS) nor E (RET) is illegal |
| `Interpreter.DrawArm` | src/chip8.rs:295-314 | the `Dxyn` arm keeps the machine well-formed |
| `Interpreter.KeyArm` | src/chip8.rs:316-335 | the `Exkk` arms keep the machine well-formed |
| `Interpreter.MiscArm` | src/chip8.rs:338-400 | the `Fxkk` arms keep the machine well-formed |
| `Interpreter.ExecuteArm` | src/chip8.rs:141-403 | every arm keeps the machine well-formed, and an arm that falls through leaves `PC` at most 2 past where it was |
| `Interpreter.ExecuteOpcode` | src/chip8.rs:129-407 | executing an opcode keeps the machine well-formed |
| `Interpreter.Cycle` | src/chip8.rs:88-105 | a cycle keeps the machine well-formed; it faults when `PC + 1` is past memory; the changed flag afterwards is set iff the opcode was CLS or DRW; each timer ends one below its value after the opcode, or stays at 0 |
| `Properties.Jump` | src/chip8.rs:158-163 | `1nnn` sets `PC` to `nnn` and changes nothing else but the timers and the changed flag |
| `Properties.JumpIndexed` | src/chip8.rs:276-280 | `Bnnn` sets `PC` to `nnn + V0` |
| `Properties.Call` | src/chip8.rs:165-174 | `2nnn` stores `PC + 2` in `stack[sp]`, increments `sp` and jumps to `nnn`; with sixteen frames in use it faults |
| `Properties.Return` | src/chip8.rs:149-154 | `00EE` decrements `sp` and jumps to the stored address; on an empty stack it faults |
| `Properties.CallThenReturn` | src/chip8.rs:149-174 | a call followed by a return lands on the instruction after the call, with `sp`, registers, `I`, memory and screen as before |
| `Properties.Skip` | src/chip8.rs:176-198 | `3xkk`, `4xkk`, `5xy0`, `9xy0`, `Ex9E` and `ExA1` advance `PC` by 4 when their condition holds and by 2 otherwise, and change nothing else |
| `Properties.StraightLineAdvances` | src/chip8.rs:405-406 | every opcode that is not a jump, call, return, skip or key wait leaves `PC` exactly 2 further on when it succeeds |
| `Properties.LoadImmediate` | src/chip8.rs:200-202 | `6xkk` puts `kk` in Vx and changes no other register |
| `Properties.AddImmediate` | src/chip8.rs:204-206 | `7xkk` sets Vx to (Vx + kk) mod 256 and leaves every other register, VF included, alone |
| `Properties.RandomMasked` | src/chip8.rs:282-283 | `Cxkk` sets Vx to the random byte AND `kk` |
| `Properties.LoadIndex` | src/chip8.rs:273-274 | `Annn` sets `I` to `nnn`, moves `PC` on by 2, and changes nothing else |
| `Properties.Arithmetic` | src/chip8.rs:208-264 | a cycle running `8xyN` with a defined N succeeds, replaces the registers by `Alu.Apply`'s result and changes nothing else but `PC`; where the flag write cannot disturb an operand (as for `Alu.ApplyMatchesReference`), it stores the reference result in Vx, sets VF to the reference flag (or leaves it alone for N <= 3) unless VF is the destination, and changes no other register; an undefined N is illegal |
| `Properties.ClearScreen` | src/chip8.rs:143-148 | CLS blanks the screen and sets the changed flag |
| `Properties.ClearThenQuiet` | src/chip8.rs:88-93 | a cycle after CLS that neither clears nor draws reports the screen unchanged and leaves it blank |
| `Properties.DrawSprite` | src/chip8.rs:285-314 | a cycle running `Dxyn` XORs the sprite at (Vx, Vy), sets VF to 1 iff a lit pixel was erased and to 0 otherwise, sets the changed flag, and faults when the sprite rows reach past memory |
| `Properties.FontZeroDrawnTwice` | src/chip8.rs:7-24 | on a fresh machine, glyph 0 drawn at the origin of a blank screen lights exactly its own bitmap without collision; drawing it again collides and blanks the screen |
| `Properties.WaitForKey` | src/chip8.rs:342-350 | `Fx0A` with no key pressed leaves `PC` where it was, so the instruction runs again; with keys pressed it stores the lowest one in Vx and moves on |
| `Properties.WaitThenPress` | src/chip8.rs:342-350 | waiting on an idle keypad, then pressing a mapped key, then running the next cycle completes the wait with that key's index in Vx |
| `Properties.TimerTransfers` | src/chip8.rs:339-356 | `Fx07` copies the delay timer to Vx; `Fx15` and `Fx18` set the delay and sound timer from Vx, and the same cycle then ticks them |
| `Properties.AddToIndex` | src/chip8.rs:358-362 | `Fx1E` adds Vx to `I` and sets VF to 1 iff the new `I` exceeds 0x0F00 |
| `Properties.FontGlyph` | src/chip8.rs:364-368 | `Fx29` sets `I` to 5·Vx, which for a hexadecimal digit is the start of its glyph inside the font table |
| `Properties.StoreBcd` | src/chip8.rs:370-381 | `Fx33` writes the three decimal digits of Vx to `I..I+3` and changes no other memory cell |
| `Properties.StoreRegisters` | src/chip8.rs:383-389 | `Fx55` copies V0..=Vx to `I..=I+x`; no register and no other memory cell changes |
| `Properties.LoadRegisters` | src/chip8.rs:391-397 | `Fx65` copies `I..=I+x` into V0..=Vx; memory and the other registers do not change |
| `Properties.TableIsDecoder` | src/chip8.rs:141-403 | an opcode matches a row of the 34-row instruction table iff the decoder accepts it |
| `Properties.IllegalExactlyOutsideTable` | src/chip8.rs:155-402 | a cycle fails as illegal exactly for the opcodes outside the instruction table, and the fault names the fetched opcode |
| `Host.HostNew` | src/lib.rs:14-16 | the wrapper starts from a freshly reset machine with the font at 0..80, zeros in the rest of memory and the changed flag clear |
| `Host.PadRom` | src/lib.rs:18-22 | the 3584-byte image holds the ROM at its start and zeros after it |
| `Host.HostLoad` | src/lib.rs:18-24 | a ROM of at most 3584 bytes is installed at 0x200 with zeros after it, memory below 0x200 is kept, every other field is reset and the changed flag is set; a longer ROM faults |
| `Host.HostCycle` | src/lib.rs:26-28 | the wrapper's cycle succeeds exactly when the machine's does, and its successor state or fault is the machine's own |
| `Host.HostUpdateKeypad` | src/lib.rs:30-32 | a mapped character sets exactly its own key to the given state and changes nothing else; an unmapped character leaves the wrapper unchanged |
| `Host.Flatten` | src/lib.rs:34-41 | concatenating rows of width 64 puts pixel (x, y) at index 64·y + x as 1 or 0 |
| `Host.FrameBuffer` | src/lib.rs:34-41 | the exported screen has 2048 bytes, with pixel (x, y) at index 64·y + x |
| `Host.FrameBufferRoundTrip` | src/lib.rs:34-41 | reading the exported bytes back row-major gives exactly the machine's screen |
| `Host.PixelOffsetsDistinct` | src/lib.rs:34-41 | distinct pixels have distinct indices, all below 2048 |

## Left out

- Random numbers: `Cxkk` takes its byte from `rand::random`. In the model that byte is a parameter of `Cycle`.
- Process exit and panics: these become `Fault` results, as listed above. The source leaves some writes in place before a panic, for example the first digits of `Fx33` or the first registers of `Fx55`. The model returns no state with a fault, so those partial writes are not modelled.
- Host.HostLoad: a ROM longer than 3584 bytes panics in the source while filling the padded array. Here it is the `MemoryOutOfRange` fault rather than a precondition.
- Properties.AddToIndex: `i += Vx` overflowing 16 bits is the `IndexOverflow` fault. This matches a debug build. A release build would wrap instead, and the wrap-around is not modelled. `Annn` sets `I` to at most 0xFFF and `Fx29` to at most 1275, so only an `I` that earlier `Fx1E` additions have pushed above 0xFF00 can overflow.
- The empty branch where the sound timer reaches 1 (the beep). It has no observable effect.
- The `wasm_bindgen` attributes and JavaScript interop types of src/lib.rs. Canvas rendering, the DOM, ROM fetching and the animation loop in web/main.ts are also left out. webpack.config.js is build configuration only.
- Host.FrameBufferUpdated: a plain field read with no contract.
- Sprite.DrawLine: its own contract states only the row width. The closed form of the loop is `Sprite.DrawLineSpec`.
- Sprite.DrawRows: its own contract states only the screen shape. The closed forms are `Sprite.DrawRowsPixels` and `Sprite.DrawRowsCollision`.
- Alu.Apply: its own contract states only definedness and which registers it may touch. The values it computes are stated by `Alu.ApplyMatchesReference` (every case where writing VF cannot disturb an operand), `Alu.FlagAsDestination` (VF as destination) and `Alu.FlagAsSource` (VF as the read second operand).
- Interpreter.ExecuteArm, Interpreter.SystemArm, Interpreter.DrawArm, Interpreter.KeyArm, Interpreter.MiscArm and Interpreter.ExecuteOpcode: their own contracts state only well-formedness, a bound on `PC` after a fall-through (ExecuteArm) and the illegal low nibbles of the `0` family (SystemArm). What each opcode does is stated against a whole cycle by the `Properties` lemmas.

## Behaviour worth knowing

- A load rewrites memory only from 0x200 up, so memory below 0x200 keeps whatever it held, and the font is writable: `Fx33` and `Fx55` with a small `I` can overwrite it. `Machine.Load` states what a load keeps, and `Machine.LoadForgetsPriorState` states how far its reset goes.
- Drawing the same sprite twice restores the screen, but the second draw collides only when the first draw lit some pixel that was unlit before it (`Sprite.DrawTwiceRestores`). On a blank screen that means whenever the sprite has a set bit (`Sprite.DrawOnBlankScreen`). A sprite drawn over pixels that are all lit collides the first time but not the second.
- The decoder reads only the low nibble in the `0` family, so `0120` is CLS. It does not check the last nibble of `5xy0` and `9xy0`. The instruction table in `Properties` records these as accepted shapes.
- In `8xy4`..`8xyE`, VF is written before the operands are read. When x is F, or y is F in an arm that reads Vy, the result is not the plain arithmetic on the old register values. `Alu.FlagAsDestination`, `Alu.FlagAsSource` and `Alu.AddWithFlagOperand` state what happens instead.
