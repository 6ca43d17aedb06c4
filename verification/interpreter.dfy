/** One machine cycle (`Cpu::emulate_cycle`) and the opcode dispatch of
    `Cpu::execute_opcode`. Where the source exits the process or would panic, the model
    returns a `Fault`; the random byte of `Cxkk` is a parameter. */
module Interpreter {
  import opened Types
  import opened Machine
  import opened Opcode
  import Sprite
  import Alu

  /** How an opcode arm ends: falling through to the final `pc += 2`, or returning early
      with `PC` as the arm left it (jumps, calls, returns, and waiting for a key). */
  datatype Flow = Fallthrough(cpu: Cpu) | Returned(cpu: Cpu)

  /** Both opcode bytes at `PC` lie inside memory. */
  predicate CanFetch(c: Cpu) {
    c.pc + 1 < MEMORY_SIZE
  }

  /** The opcode the next cycle executes. */
  function CurrentOpcode(c: Cpu): U16
    requires c.Valid() && CanFetch(c)
  {
    Fetch(c.memory, c.pc)
  }

  /** The skip instructions' extra `pc += 2`. */
  function SkipIf(c: Cpu, condition: bool): (r: Cpu)
    requires c.pc + 2 < 0x1_0000
  {
    if condition then c.(pc := c.pc + 2) else c
  }

  /** `position(|&b| b)` on the keypad from index `from` on: the lowest pressed key. */
  function FirstPressed(keypad: seq<bool>, from: nat): (r: Option<nat>)
    requires from <= |keypad|
    decreases |keypad| - from
    ensures r.Some? ==>
      && from <= r.value < |keypad|
      && keypad[r.value]
      && forall k :: from <= k < r.value ==> !keypad[k]
    ensures r.None? ==> forall k :: from <= k < |keypad| ==> !keypad[k]
  {
    if from == |keypad| then None
    else if keypad[from] then Some(from)
    else FirstPressed(keypad, from + 1)
  }

  /** `00E0` (CLS) and `00EE` (RET); the decoder looks only at the low nibble. */
  function SystemArm(c: Cpu, op: U16): (r: Result<Flow>)
    requires c.Valid() && CanFetch(c) && Family(op) == 0x0
    ensures r.Ok? ==> r.value.cpu.Valid()
    ensures N(op) != 0x0 && N(op) != 0xE ==> r == Err(IllegalOpcode(op))
  {
    if N(op) == 0x0 then
      Ok(Fallthrough(c.(frameBuffer := BlankScreen(), frameBufferUpdated := true)))
    else if N(op) == 0xE then
      if c.sp == 0 then Err(StackUnderflow)
      else Ok(Returned(c.(sp := c.sp - 1, pc := c.stack[c.sp - 1])))
    else Err(IllegalOpcode(op))
  }

  /** `Dxyn`: draw, set VF to the collision flag, mark the screen changed. Sprite rows are
      read from `memory[I..I+n]`, which must lie inside memory. */
  function DrawArm(c: Cpu, op: U16): (r: Result<Flow>)
    requires c.Valid() && CanFetch(c) && Family(op) == 0xD
    ensures r.Ok? ==> r.value.cpu.Valid()
  {
    var n := N(op);
    if n > 0 && c.i + n > MEMORY_SIZE then Err(MemoryOutOfRange)
    else
      var (fb, collided) := Sprite.Draw(c.frameBuffer, c.memory, c.i, c.v[X(op)], c.v[Y(op)], n);
      Ok(Fallthrough(c.(
        v := c.v[FLAG := if collided then 1 else 0],
        frameBuffer := fb,
        frameBufferUpdated := true)))
  }

  /** `Ex9E` (SKP) and `ExA1` (SKNP). Vx must name one of the sixteen keys. */
  function KeyArm(c: Cpu, op: U16): (r: Result<Flow>)
    requires c.Valid() && CanFetch(c) && Family(op) == 0xE
    ensures r.Ok? ==> r.value.cpu.Valid()
  {
    var key := c.v[X(op)];
    if Kk(op) == 0x9E then
      if key >= KEY_COUNT then Err(KeyOutOfRange(key))
      else Ok(Fallthrough(SkipIf(c, c.keypad[key])))
    else if Kk(op) == 0xA1 then
      if key >= KEY_COUNT then Err(KeyOutOfRange(key))
      else Ok(Fallthrough(SkipIf(c, !c.keypad[key])))
    else Err(IllegalOpcode(op))
  }

  /** The `Fxkk` family: timers, key wait, index arithmetic, BCD and register block
      transfers. */
  function MiscArm(c: Cpu, op: U16): (r: Result<Flow>)
    requires c.Valid() && CanFetch(c) && Family(op) == 0xF
    ensures r.Ok? ==> r.value.cpu.Valid()
  {
    var x, kk := X(op), Kk(op);
    if kk == 0x07 then Ok(Fallthrough(c.(v := c.v[x := c.dt])))
    else if kk == 0x0A then
      match FirstPressed(c.keypad, 0)
      case Some(key) => Ok(Fallthrough(c.(v := c.v[x := key])))
      case None => Ok(Returned(c))
    else if kk == 0x15 then Ok(Fallthrough(c.(dt := c.v[x])))
    else if kk == 0x18 then Ok(Fallthrough(c.(st := c.v[x])))
    else if kk == 0x1E then
      if c.i + c.v[x] > 0xFFFF then Err(IndexOverflow)
      else
        var i := c.i + c.v[x];
        Ok(Fallthrough(c.(i := i, v := c.v[FLAG := if i > 0x0F00 then 1 else 0])))
    else if kk == 0x29 then Ok(Fallthrough(c.(i := c.v[x] as int * 5)))
    else if kk == 0x33 then
      if c.i + 2 >= MEMORY_SIZE then Err(MemoryOutOfRange)
      else Ok(Fallthrough(c.(memory := Blit(c.memory, Alu.Bcd(c.v[x]), c.i, 0))))
    else if kk == 0x55 then
      if c.i + x >= MEMORY_SIZE then Err(MemoryOutOfRange)
      else Ok(Fallthrough(c.(memory := Blit(c.memory, c.v[..x + 1], c.i, 0))))
    else if kk == 0x65 then
      if c.i + x >= MEMORY_SIZE then Err(MemoryOutOfRange)
      else Ok(Fallthrough(c.(v := Blit(c.v, c.memory[c.i..c.i + x + 1], 0, 0))))
    else Err(IllegalOpcode(op))
  }

  /** The `match code` of `execute_opcode`, up to (not including) the final `pc += 2`. */
  function ExecuteArm(c: Cpu, op: U16, random: Byte): (r: Result<Flow>)
    requires c.Valid() && CanFetch(c)
    ensures r.Ok? ==> r.value.cpu.Valid()
    ensures r.Ok? && r.value.Fallthrough? ==> r.value.cpu.pc <= c.pc + 2
  {
    var x, y, kk, nnn := X(op), Y(op), Kk(op), Nnn(op);
    var family := Family(op);
    if family == 0x0 then SystemArm(c, op)
    else if family == 0x1 then Ok(Returned(c.(pc := nnn)))
    else if family == 0x2 then
      if c.sp == STACK_SIZE then Err(StackOverflow)
      else Ok(Returned(c.(stack := c.stack[c.sp := c.pc + 2], sp := c.sp + 1, pc := nnn)))
    else if family == 0x3 then Ok(Fallthrough(SkipIf(c, c.v[x] == kk)))
    else if family == 0x4 then Ok(Fallthrough(SkipIf(c, c.v[x] != kk)))
    else if family == 0x5 then Ok(Fallthrough(SkipIf(c, c.v[x] == c.v[y])))
    else if family == 0x6 then Ok(Fallthrough(c.(v := c.v[x := kk])))
    else if family == 0x7 then Ok(Fallthrough(c.(v := c.v[x := Alu.WrappingAdd(c.v[x], kk)])))
    else if family == 0x8 then
      match Alu.Apply(c.v, x, y, N(op))
      case Some(v) => Ok(Fallthrough(c.(v := v)))
      case None => Err(IllegalOpcode(op))
    else if family == 0x9 then Ok(Fallthrough(SkipIf(c, c.v[x] != c.v[y])))
    else if family == 0xA then Ok(Fallthrough(c.(i := nnn)))
    else if family == 0xB then Ok(Returned(c.(pc := nnn + c.v[0])))
    else if family == 0xC then Ok(Fallthrough(c.(v := c.v[x := BitAnd(random, kk)])))
    else if family == 0xD then DrawArm(c, op)
    else if family == 0xE then KeyArm(c, op)
    else MiscArm(c, op)
  }

  /** `execute_opcode`: the arm, then `pc += 2` unless the arm returned early. */
  function ExecuteOpcode(c: Cpu, op: U16, random: Byte): (r: Result<Cpu>)
    requires c.Valid() && CanFetch(c)
    ensures r.Ok? ==> r.value.Valid()
  {
    match ExecuteArm(c, op, random)
    case Err(fault) => Err(fault)
    case Ok(Fallthrough(next)) => Ok(next.(pc := next.pc + 2))
    case Ok(Returned(next)) => Ok(next)
  }

  /** One step of a countdown timer: down by one, never below zero. */
  function Tick(t: Byte): Byte {
    if t > 0 then t - 1 else t
  }

  /** The opcodes that touch the screen: CLS (any `0xy0`) and DRW. */
  predicate TouchesScreen(op: U16) {
    (Family(op) == 0x0 && N(op) == 0x0) || Family(op) == 0xD
  }

  /** `Cpu::emulate_cycle`: clear the changed flag, fetch and execute one opcode, then tick
      both timers. `random` is the byte `rand::random` would supply to `Cxkk`. */
  function Cycle(c: Cpu, random: Byte): (r: Result<Cpu>)
    requires c.Valid()
    ensures r.Ok? ==> r.value.Valid()
    ensures !CanFetch(c) ==> r == Err(MemoryOutOfRange)
    ensures r.Ok? ==> (r.value.frameBufferUpdated <==> TouchesScreen(CurrentOpcode(c)))
    ensures r.Ok? ==>
      var op := CurrentOpcode(c);
      var delay := if Family(op) == 0xF && Kk(op) == 0x15 then c.v[X(op)] else c.dt;
      var sound := if Family(op) == 0xF && Kk(op) == 0x18 then c.v[X(op)] else c.st;
      && r.value.dt == (if delay == 0 then 0 else delay - 1)
      && r.value.st == (if sound == 0 then 0 else sound - 1)
  {
    var cleared := c.(frameBufferUpdated := false);
    if !CanFetch(c) then Err(MemoryOutOfRange)
    else
      match ExecuteOpcode(cleared, Fetch(c.memory, c.pc), random)
      case Err(fault) => Err(fault)
      case Ok(next) => Ok(next.(dt := Tick(next.dt), st := Tick(next.st)))
  }
}
