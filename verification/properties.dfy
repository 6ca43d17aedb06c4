/** What one cycle does, opcode by opcode, stated against the whole machine state: most
    lemmas give the exact successor state (or fault) of `Cycle`, so that "nothing else
    changes" is part of the statement; the rest chain two cycles or compare the decoder
    with an instruction table. */
module Properties {
  import opened Types
  import opened Machine
  import opened Opcode
  import opened Interpreter
  import Sprite
  import Alu

  /** The bookkeeping every successful cycle performs around its opcode: the changed flag
      cleared and both timers ticked. */
  function AfterCycle(c: Cpu): Cpu {
    c.(frameBufferUpdated := false, dt := Tick(c.dt), st := Tick(c.st))
  }

  // ---------------------------------------------------------------- control flow

  /** `1nnn` jumps to `nnn`. */
  lemma Jump(c: Cpu, random: Byte)
    requires c.Valid() && CanFetch(c) && Family(CurrentOpcode(c)) == 0x1
    ensures Cycle(c, random) == Ok(AfterCycle(c).(pc := Nnn(CurrentOpcode(c))))
  {
  }

  /** `Bnnn` jumps to `nnn + V0`, which may lie past the end of memory. */
  lemma JumpIndexed(c: Cpu, random: Byte)
    requires c.Valid() && CanFetch(c) && Family(CurrentOpcode(c)) == 0xB
    ensures Cycle(c, random) == Ok(AfterCycle(c).(pc := Nnn(CurrentOpcode(c)) + c.v[0]))
  {
  }

  /** `2nnn` pushes the address of the next instruction and jumps to `nnn`; with all
      sixteen slots in use it faults. */
  lemma Call(c: Cpu, random: Byte)
    requires c.Valid() && CanFetch(c) && Family(CurrentOpcode(c)) == 0x2
    ensures c.sp == STACK_SIZE ==> Cycle(c, random) == Err(StackOverflow)
    ensures c.sp < STACK_SIZE ==> Cycle(c, random) == Ok(AfterCycle(c).(
      stack := c.stack[c.sp := c.pc + 2], sp := c.sp + 1, pc := Nnn(CurrentOpcode(c))))
  {
  }

  /** `00EE` pops the return address into `PC`; on an empty stack it faults. */
  lemma Return(c: Cpu, random: Byte)
    requires c.Valid() && CanFetch(c)
    requires Family(CurrentOpcode(c)) == 0x0 && N(CurrentOpcode(c)) == 0xE
    ensures c.sp == 0 ==> Cycle(c, random) == Err(StackUnderflow)
    ensures c.sp > 0 ==> Cycle(c, random) == Ok(AfterCycle(c).(sp := c.sp - 1, pc := c.stack[c.sp - 1]))
  {
  }

  /** A call to a subroutine whose first instruction is `00EE` comes back to the
      instruction after the call, with the stack pointer, registers, index and memory as
      they were. */
  lemma CallThenReturn(c: Cpu, random1: Byte, random2: Byte)
    requires c.Valid() && CanFetch(c) && Family(CurrentOpcode(c)) == 0x2 && c.sp < STACK_SIZE
    requires Nnn(CurrentOpcode(c)) + 1 < MEMORY_SIZE
    requires Fetch(c.memory, Nnn(CurrentOpcode(c))) == 0x00EE
    ensures Cycle(c, random1).Ok?
    ensures var c1 := Cycle(c, random1).value;
      && CanFetch(c1)
      && Cycle(c1, random2).Ok?
      && var c2 := Cycle(c1, random2).value;
      && c2.pc == c.pc + 2
      && c2.sp == c.sp
      && c2.v == c.v
      && c2.i == c.i
      && c2.memory == c.memory
      && c2.frameBuffer == c.frameBuffer
  {
    Call(c, random1);
    var c1 := Cycle(c, random1).value;
    assert CurrentOpcode(c1) == 0x00EE;
    Return(c1, random2);
  }

  // ---------------------------------------------------------------- program counter

  /** The skip instructions and the condition under which each skips: `3xkk`, `4xkk`,
      `5xy0`, `9xy0`, `Ex9E` and `ExA1`. */
  predicate IsSkip(op: U16) {
    || Family(op) in {0x3, 0x4, 0x5, 0x9}
    || (Family(op) == 0xE && Kk(op) in {0x9E, 0xA1})
  }

  predicate SkipTaken(c: Cpu, op: U16)
    requires c.Valid() && IsSkip(op)
    requires Family(op) == 0xE ==> c.v[X(op)] < KEY_COUNT
  {
    var vx, vy := c.v[X(op)], c.v[Y(op)];
    match Family(op)
    case 0x3 => vx == Kk(op)
    case 0x4 => vx != Kk(op)
    case 0x5 => vx == vy
    case 0x9 => vx != vy
    case _ => if Kk(op) == 0x9E then c.keypad[vx] else !c.keypad[vx]
  }

  /** A skip instruction advances `PC` by 4 when its condition holds and by 2 otherwise,
      and changes nothing else. A key test on a register holding 16 or more faults. */
  lemma Skip(c: Cpu, random: Byte)
    requires c.Valid() && CanFetch(c) && IsSkip(CurrentOpcode(c))
    ensures var op := CurrentOpcode(c);
      if Family(op) == 0xE && c.v[X(op)] >= KEY_COUNT then
        Cycle(c, random) == Err(KeyOutOfRange(c.v[X(op)]))
      else
        Cycle(c, random) == Ok(AfterCycle(c).(pc := c.pc + if SkipTaken(c, op) then 4 else 2))
  {
  }

  /** The opcodes that always fall through to the next instruction: everything except
      jumps, calls, returns, skips and the key wait. */
  predicate IsStraightLine(op: U16) {
    || (Family(op) == 0x0 && N(op) == 0x0)
    || Family(op) in {0x6, 0x7, 0x8, 0xA, 0xC, 0xD}
    || (Family(op) == 0xF && Kk(op) != 0x0A)
  }

  /** A straight-line opcode that succeeds moves `PC` to the next instruction. */
  lemma StraightLineAdvances(c: Cpu, random: Byte)
    requires c.Valid() && CanFetch(c) && IsStraightLine(CurrentOpcode(c))
    ensures Cycle(c, random).Ok? ==> Cycle(c, random).value.pc == c.pc + 2
  {
  }

  // ---------------------------------------------------------------- registers

  /** `6xkk` loads `kk` into Vx. */
  lemma LoadImmediate(c: Cpu, random: Byte)
    requires c.Valid() && CanFetch(c) && Family(CurrentOpcode(c)) == 0x6
    ensures var op := CurrentOpcode(c);
      && Cycle(c, random).Ok?
      && Cycle(c, random).value.v[X(op)] == Kk(op)
      && Cycle(c, random) == Ok(AfterCycle(c).(v := c.v[X(op) := Kk(op)], pc := c.pc + 2))
  {
  }

  /** `7xkk` adds `kk` to Vx modulo 256 and leaves VF alone. */
  lemma AddImmediate(c: Cpu, random: Byte)
    requires c.Valid() && CanFetch(c) && Family(CurrentOpcode(c)) == 0x7
    ensures var op := CurrentOpcode(c);
      && Cycle(c, random).Ok?
      && Cycle(c, random).value.v[X(op)] == (c.v[X(op)] + Kk(op)) % 0x100
      && (forall k :: 0 <= k < REGISTER_COUNT && k != X(op) ==> Cycle(c, random).value.v[k] == c.v[k])
      && Cycle(c, random) == Ok(AfterCycle(c).(v := Cycle(c, random).value.v, pc := c.pc + 2))
  {
  }

  /** `Cxkk` stores the supplied random byte masked with `kk`. */
  lemma RandomMasked(c: Cpu, random: Byte)
    requires c.Valid() && CanFetch(c) && Family(CurrentOpcode(c)) == 0xC
    ensures var op := CurrentOpcode(c);
      Cycle(c, random) == Ok(AfterCycle(c).(v := c.v[X(op) := BitAnd(random, Kk(op))], pc := c.pc + 2))
  {
  }

  /** `Annn` loads `nnn` into the index register. */
  lemma LoadIndex(c: Cpu, random: Byte)
    requires c.Valid() && CanFetch(c) && Family(CurrentOpcode(c)) == 0xA
    ensures Cycle(c, random) == Ok(AfterCycle(c).(i := Nnn(CurrentOpcode(c)), pc := c.pc + 2))
  {
  }

  /** `8xyN`: every defined sub-operation succeeds, replaces the register file by what
      `Alu.Apply` computes and changes nothing else but `PC`; an undefined sub-operation is
      an illegal opcode. Whenever writing VF cannot disturb an operand (the flagless forms
      always; the carrying forms when Vx is not VF and Vy is not VF or not read), Vx gets
      the reference result, VF the reference flag for the carrying sub-operations, and no
      other register changes. */
  lemma Arithmetic(c: Cpu, random: Byte)
    requires c.Valid() && CanFetch(c) && Family(CurrentOpcode(c)) == 0x8
    ensures var op := CurrentOpcode(c);
      Alu.Reference(N(op), 0, 0).None? ==> Cycle(c, random) == Err(IllegalOpcode(op))
    ensures var op := CurrentOpcode(c);
      Alu.Reference(N(op), 0, 0).Some? ==>
        Cycle(c, random) == Ok(AfterCycle(c).(v := Alu.Apply(c.v, X(op), Y(op), N(op)).value, pc := c.pc + 2))
    ensures var op := CurrentOpcode(c);
      var x, y := X(op), Y(op);
      Alu.Reference(N(op), 0, 0).Some? && (N(op) <= 0x3 || (x != FLAG && (y != FLAG || N(op) in {0x6, 0xE}))) ==>
        var out := Alu.Reference(N(op), c.v[x], c.v[y]).value;
        && Cycle(c, random).Ok?
        && var r := Cycle(c, random).value;
        && r.v[x] == out.value
        && (out.flag.Some? && x != FLAG ==> r.v[FLAG] == out.flag.value)
        && (out.flag.None? && x != FLAG ==> r.v[FLAG] == c.v[FLAG])
        && (forall k :: 0 <= k < REGISTER_COUNT && k != x && k != FLAG ==> r.v[k] == c.v[k])
        && r == AfterCycle(c).(v := r.v, pc := c.pc + 2)
  {
    var op := CurrentOpcode(c);
    if Alu.Reference(N(op), 0, 0).Some? && (N(op) <= 0x3 || (X(op) != FLAG && (Y(op) != FLAG || N(op) in {0x6, 0xE}))) {
      Alu.ApplyMatchesReference(c.v, X(op), Y(op), N(op));
    }
  }

  // ---------------------------------------------------------------- screen

  /** `00E0` (any `0xy0`) blanks the screen and marks it changed. */
  lemma ClearScreen(c: Cpu, random: Byte)
    requires c.Valid() && CanFetch(c)
    requires Family(CurrentOpcode(c)) == 0x0 && N(CurrentOpcode(c)) == 0x0
    ensures Cycle(c, random).Ok?
    ensures var r := Cycle(c, random).value;
      && IsBlank(r.frameBuffer)
      && r.frameBufferUpdated
      && r == AfterCycle(c).(frameBuffer := r.frameBuffer, frameBufferUpdated := true, pc := c.pc + 2)
  {
  }

  /** After a clear, a cycle that neither clears nor draws reports the screen unchanged and
      leaves it blank. */
  lemma ClearThenQuiet(c: Cpu, random1: Byte, random2: Byte)
    requires c.Valid() && CanFetch(c)
    requires Family(CurrentOpcode(c)) == 0x0 && N(CurrentOpcode(c)) == 0x0
    requires CanFetch(Cycle(c, random1).value)
    requires !TouchesScreen(CurrentOpcode(Cycle(c, random1).value))
    requires Cycle(Cycle(c, random1).value, random2).Ok?
    ensures var r := Cycle(Cycle(c, random1).value, random2).value;
      !r.frameBufferUpdated && IsBlank(r.frameBuffer)
  {
    ClearScreen(c, random1);
    var c1 := Cycle(c, random1).value;
    var op := CurrentOpcode(c1);
    assert Cycle(c1, random2).value.frameBuffer == c1.frameBuffer by {
      assert ExecuteArm(c1.(frameBufferUpdated := false), op, random2).value.cpu.frameBuffer == c1.frameBuffer;
    }
  }

  /** `Dxyn` XORs the sprite onto the screen, sets VF to 1 exactly when a lit pixel was
      switched off, marks the screen changed and moves on; a sprite reaching past the end
      of memory faults. */
  lemma DrawSprite(c: Cpu, random: Byte)
    requires c.Valid() && CanFetch(c) && Family(CurrentOpcode(c)) == 0xD
    ensures var op := CurrentOpcode(c);
      N(op) > 0 && c.i + N(op) > MEMORY_SIZE ==> Cycle(c, random) == Err(MemoryOutOfRange)
    ensures var op := CurrentOpcode(c);
      var n, vx, vy := N(op), c.v[X(op)], c.v[Y(op)];
      (n == 0 || c.i + n <= MEMORY_SIZE) ==>
        && Cycle(c, random).Ok?
        && var r := Cycle(c, random).value;
        && (forall y, x :: 0 <= y < HEIGHT && 0 <= x < WIDTH ==>
              r.frameBuffer[y][x] == (c.frameBuffer[y][x] != Sprite.Toggles(c.memory, c.i, vx, vy, 0, n, y, x)))
        && (r.v[FLAG] == 1 <==> Sprite.CollisionFrom(c.frameBuffer, c.memory, c.i, vx, vy, 0, n))
        && r.v[FLAG] <= 1
        && r.frameBufferUpdated
        && r == AfterCycle(c).(v := c.v[FLAG := r.v[FLAG]], frameBuffer := r.frameBuffer,
                               frameBufferUpdated := true, pc := c.pc + 2)
  {
  }

  /** On a fresh machine, the glyph of digit 0 (at `5 * 0`) drawn at the origin of a blank
      screen lights exactly its own bitmap in the top-left 8x5 corner with no collision;
      drawing it again collides and blanks the screen. */
  lemma FontZeroDrawnTwice()
    ensures var memory := New().memory;
      var first := Sprite.Draw(BlankScreen(), memory, 5 * 0, 0, 0, 5);
      var second := Sprite.Draw(first.0, memory, 5 * 0, 0, 0, 5);
      && !first.1
      && (forall y, x :: 0 <= y < HEIGHT && 0 <= x < WIDTH ==>
            first.0[y][x] == (y < 5 && x < 8 && Sprite.SpriteBit(FONTSET[y], x)))
      && second.1
      && second.0 == BlankScreen()
  {
    var memory := New().memory;
    Sprite.DrawOnBlankScreen(BlankScreen(), memory, 0, 0, 0, 5);
    Sprite.DrawTwiceRestores(BlankScreen(), memory, 0, 0, 0, 5);
    assert forall a :: 0 <= a < 5 ==> memory[a] == FONTSET[a];
    FontZeroCovers(memory);
    FontZeroHasPixel(memory);
  }

  /** The pixels glyph 0 covers when placed at the origin. */
  lemma FontZeroCovers(memory: seq<Byte>)
    requires |memory| == MEMORY_SIZE && forall a :: 0 <= a < 5 ==> memory[a] == FONTSET[a]
    ensures forall y, x :: 0 <= y < HEIGHT && 0 <= x < WIDTH ==>
      Sprite.Toggles(memory, 0, 0, 0, 0, 5, y, x) == (y < 5 && x < 8 && Sprite.SpriteBit(FONTSET[y], x))
  {
    forall y, x | 0 <= y < HEIGHT && 0 <= x < WIDTH
      ensures Sprite.Toggles(memory, 0, 0, 0, 0, 5, y, x) == (y < 5 && x < 8 && Sprite.SpriteBit(FONTSET[y], x))
    {
      assert Sprite.SpriteRow(0, y) == y && Sprite.SpriteColumn(0, x) == x;
      if y < 5 {
        Sprite.TogglesOnRow(memory, 0, 0, 0, 0, 5, y, x);
        assert memory[y] == FONTSET[y];
      }
    }
  }

  lemma FontZeroHasPixel(memory: seq<Byte>)
    requires memory == New().memory
    ensures Sprite.HasPixel(memory, 0, 5)
  {
    assert FONTSET[0] == 0xF0;
    assert memory[0] == FONTSET[0];
    assert Sprite.SpriteBit(0xF0, 0);
    assert Sprite.RowBit(memory, 0, 0, 0);
  }

  // ---------------------------------------------------------------- keys and timers

  /** `Fx0A` with no key pressed does not advance `PC`, so the same instruction runs again
      next cycle; with a key pressed it stores the lowest pressed key in Vx and moves on. */
  lemma WaitForKey(c: Cpu, random: Byte)
    requires c.Valid() && CanFetch(c) && Family(CurrentOpcode(c)) == 0xF && Kk(CurrentOpcode(c)) == 0x0A
    ensures (forall k :: 0 <= k < KEY_COUNT ==> !c.keypad[k]) ==> Cycle(c, random) == Ok(AfterCycle(c))
    ensures forall key :: 0 <= key < KEY_COUNT && c.keypad[key] && (forall k :: 0 <= k < key ==> !c.keypad[k]) ==>
      Cycle(c, random) == Ok(AfterCycle(c).(v := c.v[X(CurrentOpcode(c)) := key], pc := c.pc + 2))
  {
    if exists k :: 0 <= k < KEY_COUNT && c.keypad[k] {
      var r := FirstPressed(c.keypad, 0);
      assert r.Some?;
    }
  }

  /** Waiting on an idle keypad, then pressing a key, then running the cycle again: the
      wait completes with that key's index in Vx and `PC` past the instruction. */
  lemma WaitThenPress(c: Cpu, keycode: char, random1: Byte, random2: Byte)
    requires c.Valid() && CanFetch(c) && Family(CurrentOpcode(c)) == 0xF && Kk(CurrentOpcode(c)) == 0x0A
    requires forall k :: 0 <= k < KEY_COUNT ==> !c.keypad[k]
    requires KeyIndex(keycode).Some?
    ensures Cycle(c, random1).Ok? && Cycle(c, random1).value.pc == c.pc
    ensures var pressed := UpdateKeypad(Cycle(c, random1).value, keycode, true);
      && CanFetch(pressed)
      && Cycle(pressed, random2).Ok?
      && Cycle(pressed, random2).value.pc == c.pc + 2
      && Cycle(pressed, random2).value.v[X(CurrentOpcode(c))] == KeyIndex(keycode).value
  {
    WaitForKey(c, random1);
    var c1 := Cycle(c, random1).value;
    var pressed := UpdateKeypad(c1, keycode, true);
    var key := KeyIndex(keycode).value;
    assert CurrentOpcode(pressed) == CurrentOpcode(c);
    WaitForKey(pressed, random2);
  }

  /** `Fx07`, `Fx15`, `Fx18` move values between Vx and the timers; the cycle then ticks
      the timer that was just set. */
  lemma TimerTransfers(c: Cpu, random: Byte)
    requires c.Valid() && CanFetch(c) && Family(CurrentOpcode(c)) == 0xF
    ensures var op := CurrentOpcode(c);
      Kk(op) == 0x07 ==> Cycle(c, random) == Ok(AfterCycle(c).(v := c.v[X(op) := c.dt], pc := c.pc + 2))
    ensures var op := CurrentOpcode(c);
      Kk(op) == 0x15 ==> Cycle(c, random) == Ok(AfterCycle(c).(dt := Tick(c.v[X(op)]), pc := c.pc + 2))
    ensures var op := CurrentOpcode(c);
      Kk(op) == 0x18 ==> Cycle(c, random) == Ok(AfterCycle(c).(st := Tick(c.v[X(op)]), pc := c.pc + 2))
  {
  }

  // ---------------------------------------------------------------- index register and memory

  /** `Fx1E` adds Vx to `I` and sets VF to whether the sum passed 0x0F00; a sum that does
      not fit in 16 bits faults. */
  lemma AddToIndex(c: Cpu, random: Byte)
    requires c.Valid() && CanFetch(c) && Family(CurrentOpcode(c)) == 0xF && Kk(CurrentOpcode(c)) == 0x1E
    ensures var vx := c.v[X(CurrentOpcode(c))];
      c.i + vx > 0xFFFF ==> Cycle(c, random) == Err(IndexOverflow)
    ensures var vx := c.v[X(CurrentOpcode(c))];
      c.i + vx <= 0xFFFF ==>
        Cycle(c, random) == Ok(AfterCycle(c).(
          i := c.i + vx, v := c.v[FLAG := if c.i + vx > 0x0F00 then 1 else 0], pc := c.pc + 2))
  {
  }

  /** `Fx29` points `I` at the font glyph of the digit in Vx; for a hexadecimal digit the
      whole five-byte glyph lies inside the font table. */
  lemma FontGlyph(c: Cpu, random: Byte)
    requires c.Valid() && CanFetch(c) && Family(CurrentOpcode(c)) == 0xF && Kk(CurrentOpcode(c)) == 0x29
    ensures var vx := c.v[X(CurrentOpcode(c))];
      && Cycle(c, random) == Ok(AfterCycle(c).(i := 5 * vx, pc := c.pc + 2))
      && (vx < 0x10 ==> 5 * vx + 5 <= |FONTSET|)
  {
  }

  /** `Fx33` writes the hundreds, tens and units digits of Vx to `memory[I..I+3]` and
      nothing else; when `I + 2` is past the end of memory it faults. */
  lemma StoreBcd(c: Cpu, random: Byte)
    requires c.Valid() && CanFetch(c) && Family(CurrentOpcode(c)) == 0xF && Kk(CurrentOpcode(c)) == 0x33
    ensures c.i + 2 >= MEMORY_SIZE ==> Cycle(c, random) == Err(MemoryOutOfRange)
    ensures c.i + 2 < MEMORY_SIZE ==>
      && Cycle(c, random).Ok?
      && var r := Cycle(c, random).value;
      && var vx := c.v[X(CurrentOpcode(c))];
      && r.memory[c.i] < 10 && r.memory[c.i + 1] < 10 && r.memory[c.i + 2] < 10
      && 100 * r.memory[c.i] as int + 10 * r.memory[c.i + 1] as int + r.memory[c.i + 2] as int == vx as int
      && (forall a :: 0 <= a < MEMORY_SIZE && !(c.i <= a < c.i + 3) ==> r.memory[a] == c.memory[a])
      && r == AfterCycle(c).(memory := r.memory, pc := c.pc + 2)
  {
  }

  /** `Fx55` copies V0..=Vx to `memory[I..=I+x]`; no register and no other memory cell
      changes. */
  lemma StoreRegisters(c: Cpu, random: Byte)
    requires c.Valid() && CanFetch(c) && Family(CurrentOpcode(c)) == 0xF && Kk(CurrentOpcode(c)) == 0x55
    ensures var x := X(CurrentOpcode(c));
      c.i + x >= MEMORY_SIZE ==> Cycle(c, random) == Err(MemoryOutOfRange)
    ensures var x := X(CurrentOpcode(c));
      c.i + x < MEMORY_SIZE ==>
        && Cycle(c, random).Ok?
        && var r := Cycle(c, random).value;
        && (forall k :: 0 <= k <= x ==> r.memory[c.i + k] == c.v[k])
        && (forall a :: 0 <= a < MEMORY_SIZE && !(c.i <= a <= c.i + x) ==> r.memory[a] == c.memory[a])
        && r == AfterCycle(c).(memory := r.memory, pc := c.pc + 2)
  {
  }

  /** `Fx65` copies `memory[I..=I+x]` into V0..=Vx; no other register and no memory cell
      changes. */
  lemma LoadRegisters(c: Cpu, random: Byte)
    requires c.Valid() && CanFetch(c) && Family(CurrentOpcode(c)) == 0xF && Kk(CurrentOpcode(c)) == 0x65
    ensures var x := X(CurrentOpcode(c));
      c.i + x >= MEMORY_SIZE ==> Cycle(c, random) == Err(MemoryOutOfRange)
    ensures var x := X(CurrentOpcode(c));
      c.i + x < MEMORY_SIZE ==>
        && Cycle(c, random).Ok?
        && var r := Cycle(c, random).value;
        && (forall k :: 0 <= k <= x ==> r.v[k] == c.memory[c.i + k])
        && (forall k :: x < k < REGISTER_COUNT ==> r.v[k] == c.v[k])
        && r == AfterCycle(c).(v := r.v, pc := c.pc + 2)
  {
  }

  // ---------------------------------------------------------------- instruction set

  /** One nibble of an opcode pattern: a fixed hexadecimal digit or an operand. */
  datatype Nibble = Any | Is(digit: nat)

  /** An accepted opcode shape, most significant nibble first. */
  datatype Pattern = Pattern(family: nat, x: Nibble, y: Nibble, n: Nibble)

  predicate Fits(value: nat, nibble: Nibble) {
    nibble.Any? || value == nibble.digit
  }

  predicate Matches(op: U16, p: Pattern) {
    Family(op) == p.family && Fits(X(op), p.x) && Fits(Y(op), p.y) && Fits(N(op), p.n)
  }

  /** The instruction set the interpreter accepts, as a table: `Any` marks operand nibbles
      and the nibbles the decoder ignores (it reads only the low nibble of the `0` family
      and does not check the last nibble of `5xy0` and `9xy0`). */
  const INSTRUCTIONS: seq<Pattern> := [
    Pattern(0x0, Any, Any, Is(0x0)),     // CLS
    Pattern(0x0, Any, Any, Is(0xE)),     // RET
    Pattern(0x1, Any, Any, Any),         // JP addr
    Pattern(0x2, Any, Any, Any),         // CALL addr
    Pattern(0x3, Any, Any, Any),         // SE Vx, byte
    Pattern(0x4, Any, Any, Any),         // SNE Vx, byte
    Pattern(0x5, Any, Any, Any),         // SE Vx, Vy
    Pattern(0x6, Any, Any, Any),         // LD Vx, byte
    Pattern(0x7, Any, Any, Any),         // ADD Vx, byte
    Pattern(0x8, Any, Any, Is(0x0)),     // LD Vx, Vy
    Pattern(0x8, Any, Any, Is(0x1)),     // OR Vx, Vy
    Pattern(0x8, Any, Any, Is(0x2)),     // AND Vx, Vy
    Pattern(0x8, Any, Any, Is(0x3)),     // XOR Vx, Vy
    Pattern(0x8, Any, Any, Is(0x4)),     // ADD Vx, Vy
    Pattern(0x8, Any, Any, Is(0x5)),     // SUB Vx, Vy
    Pattern(0x8, Any, Any, Is(0x6)),     // SHR Vx
    Pattern(0x8, Any, Any, Is(0x7)),     // SUBN Vx, Vy
    Pattern(0x8, Any, Any, Is(0xE)),     // SHL Vx
    Pattern(0x9, Any, Any, Any),         // SNE Vx, Vy
    Pattern(0xA, Any, Any, Any),         // LD I, addr
    Pattern(0xB, Any, Any, Any),         // JP V0, addr
    Pattern(0xC, Any, Any, Any),         // RND Vx, byte
    Pattern(0xD, Any, Any, Any),         // DRW Vx, Vy, nibble
    Pattern(0xE, Any, Is(0x9), Is(0xE)), // SKP Vx
    Pattern(0xE, Any, Is(0xA), Is(0x1)), // SKNP Vx
    Pattern(0xF, Any, Is(0x0), Is(0x7)), // LD Vx, DT
    Pattern(0xF, Any, Is(0x0), Is(0xA)), // LD Vx, K
    Pattern(0xF, Any, Is(0x1), Is(0x5)), // LD DT, Vx
    Pattern(0xF, Any, Is(0x1), Is(0x8)), // LD ST, Vx
    Pattern(0xF, Any, Is(0x1), Is(0xE)), // ADD I, Vx
    Pattern(0xF, Any, Is(0x2), Is(0x9)), // LD F, Vx
    Pattern(0xF, Any, Is(0x3), Is(0x3)), // LD B, Vx
    Pattern(0xF, Any, Is(0x5), Is(0x5)), // LD [I], Vx
    Pattern(0xF, Any, Is(0x6), Is(0x5))  // LD Vx, [I]
  ]

  predicate Accepted(op: U16) {
    exists k :: 0 <= k < |INSTRUCTIONS| && Matches(op, INSTRUCTIONS[k])
  }

  /** The decoder's acceptance, family by family, on the opcode's fields. */
  predicate Decodable(op: U16) {
    var f, n, kk := Family(op), N(op), Kk(op);
    if f == 0x0 then n == 0x0 || n == 0xE
    else if f == 0x8 then n <= 0x7 || n == 0xE
    else if f == 0xE then kk == 0x9E || kk == 0xA1
    else if f == 0xF then kk in {0x07, 0x0A, 0x15, 0x18, 0x1E, 0x29, 0x33, 0x55, 0x65}
    else true
  }

  /** Every row of the table describes opcodes the decoder accepts. */
  lemma TableRowsDecodable(op: U16, k: nat)
    requires k < |INSTRUCTIONS| && Matches(op, INSTRUCTIONS[k])
    ensures Decodable(op)
  {
    EncodeDecode(op);
  }

  /** Every opcode the decoder accepts has a row in the table. */
  lemma DecodableInTable(op: U16)
    requires Decodable(op)
    ensures Accepted(op)
  {
    EncodeDecode(op);
    var f, y, n := Family(op), Y(op), N(op);
    if f == 0x0 {
      assert Matches(op, INSTRUCTIONS[if n == 0x0 then 0 else 1]);
    } else if f <= 0x7 {
      assert Matches(op, INSTRUCTIONS[f + 1]);
    } else if f == 0x8 {
      assert Matches(op, INSTRUCTIONS[if n == 0xE then 17 else 9 + n]);
    } else if f <= 0xD {
      assert Matches(op, INSTRUCTIONS[9 + f]);
    } else if f == 0xE {
      assert Matches(op, INSTRUCTIONS[if y == 0x9 then 23 else 24]);
    } else {
      MiscInTable(op);
    }
  }

  lemma MiscInTable(op: U16)
    requires Family(op) == 0xF && Decodable(op)
    ensures Accepted(op)
  {
    EncodeDecode(op);
    var y, n := Y(op), N(op);
    if y == 0x0 {
      assert Matches(op, INSTRUCTIONS[if n == 0x7 then 25 else 26]);
    } else if y == 0x1 {
      assert Matches(op, INSTRUCTIONS[if n == 0x5 then 27 else if n == 0x8 then 28 else 29]);
    } else if y == 0x2 {
      assert Matches(op, INSTRUCTIONS[30]);
    } else if y == 0x3 {
      assert Matches(op, INSTRUCTIONS[31]);
    } else if y == 0x5 {
      assert Matches(op, INSTRUCTIONS[32]);
    } else {
      assert Matches(op, INSTRUCTIONS[33]);
    }
  }

  /** The table and the decoder agree. */
  lemma TableIsDecoder(op: U16)
    ensures Accepted(op) <==> Decodable(op)
  {
    if Accepted(op) {
      var k :| 0 <= k < |INSTRUCTIONS| && Matches(op, INSTRUCTIONS[k]);
      TableRowsDecodable(op, k);
    }
    if Decodable(op) {
      DecodableInTable(op);
    }
  }

  /** An opcode is rejected as illegal exactly when it matches no row of the instruction
      table; no other fault carries an opcode. */
  lemma IllegalExactlyOutsideTable(c: Cpu, random: Byte)
    requires c.Valid() && CanFetch(c)
    ensures var op := CurrentOpcode(c);
      Cycle(c, random) == Err(IllegalOpcode(op)) <==> !Accepted(op)
    ensures Cycle(c, random).Err? && Cycle(c, random).fault.IllegalOpcode? ==>
      Cycle(c, random).fault.opcode == CurrentOpcode(c)
  {
    TableIsDecoder(CurrentOpcode(c));
  }
}
