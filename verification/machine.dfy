/** The CHIP-8 machine state (`Cpu` in src/chip8.rs) and the operations that build or
    reset it: creation, program load and keypad update. */
module Machine {
  import opened Types

  const MEMORY_SIZE: nat := 0x1000
  /** First address of the program region; also the initial program counter. */
  const PROGRAM_START: nat := 0x200
  /** Size of the program region 0x200..=0xFFF, written as the source writes it. */
  const ROM_SIZE: nat := 0xFFF - 0x1FF
  const REGISTER_COUNT: nat := 0x10
  const STACK_SIZE: nat := 0x10
  const KEY_COUNT: nat := 0x10
  const WIDTH: nat := 64
  const HEIGHT: nat := 32
  /** Register VF, the carry/borrow/collision output. */
  const FLAG: nat := 0xF

  /** The sixteen hexadecimal glyphs 0..F, five rows of an 8x5 bitmap each, written as
      two halves of eight glyphs. */
  const FONTSET: seq<Byte> := FONT_LOW + FONT_HIGH

  const FONT_LOW: seq<Byte> := [
    0xF0, 0x90, 0x90, 0x90, 0xF0, // 0
    0x20, 0x60, 0x20, 0x20, 0x70, // 1
    0xF0, 0x10, 0xF0, 0x80, 0xF0, // 2
    0xF0, 0x10, 0xF0, 0x10, 0xF0, // 3
    0x90, 0x90, 0xF0, 0x10, 0x10, // 4
    0xF0, 0x80, 0xF0, 0x10, 0xF0, // 5
    0xF0, 0x80, 0xF0, 0x90, 0xF0, // 6
    0xF0, 0x10, 0x20, 0x40, 0x40  // 7
  ]

  const FONT_HIGH: seq<Byte> := [
    0xF0, 0x90, 0xF0, 0x90, 0xF0, // 8
    0xF0, 0x90, 0xF0, 0x10, 0xF0, // 9
    0xF0, 0x90, 0xF0, 0x90, 0x90, // A
    0xE0, 0x90, 0xE0, 0x90, 0xE0, // B
    0xF0, 0x80, 0x80, 0x80, 0xF0, // C
    0xE0, 0x90, 0x90, 0x90, 0xE0, // D
    0xF0, 0x80, 0xF0, 0x80, 0xF0, // E
    0xF0, 0x80, 0xF0, 0x80, 0x80  // F
  ]

  /** Pixels are lit (`true`) or unlit; the source stores them as the bytes 1 and 0. */
  datatype Cpu = Cpu(
    memory: seq<Byte>,
    stack: seq<U16>,
    v: seq<Byte>,
    i: U16,
    pc: U16,
    sp: nat,
    keypad: seq<bool>,
    dt: Byte,
    st: Byte,
    frameBuffer: seq<seq<bool>>,
    frameBufferUpdated: bool)
  {
    /** The fixed array sizes of the source, and a stack pointer that indexes at most one
        past the last slot. */
    predicate Valid() {
      && |memory| == MEMORY_SIZE
      && |stack| == STACK_SIZE
      && |v| == REGISTER_COUNT
      && sp <= STACK_SIZE
      && |keypad| == KEY_COUNT
      && ScreenShaped(frameBuffer)
    }

    /** Every field that creation and load initialise holds its initial value. */
    predicate IsReset() {
      && Valid()
      && (forall k :: 0 <= k < STACK_SIZE ==> stack[k] == 0)
      && (forall k :: 0 <= k < REGISTER_COUNT ==> v[k] == 0)
      && i == 0
      && pc == PROGRAM_START
      && sp == 0
      && (forall k :: 0 <= k < KEY_COUNT ==> !keypad[k])
      && dt == 0
      && st == 0
      && IsBlank(frameBuffer)
    }
  }

  predicate ScreenShaped(fb: seq<seq<bool>>) {
    |fb| == HEIGHT && forall y :: 0 <= y < HEIGHT ==> |fb[y]| == WIDTH
  }

  predicate IsBlank(fb: seq<seq<bool>>)
    requires ScreenShaped(fb)
  {
    forall y, x :: 0 <= y < HEIGHT && 0 <= x < WIDTH ==> !fb[y][x]
  }

  function BlankScreen(): (fb: seq<seq<bool>>)
    ensures ScreenShaped(fb) && IsBlank(fb)
  {
    seq(HEIGHT, _ => seq(WIDTH, _ => false))
  }

  /** Copies `src[k..]` into `dst` starting at `dst[offset + k]`, one element at a time and
      in ascending order, like the source's `for (addr, &byte) in src.iter().enumerate()`
      loops. */
  function Blit<T>(dst: seq<T>, src: seq<T>, offset: nat, k: nat): (r: seq<T>)
    requires offset + |src| <= |dst| && k <= |src|
    decreases |src| - k
    ensures |r| == |dst|
    ensures forall a :: 0 <= a < |dst| ==>
      r[a] == if offset + k <= a < offset + |src| then src[a - offset] else dst[a]
  {
    if k == |src| then dst else Blit(dst[offset + k := src[k]], src, offset, k + 1)
  }

  /** `Cpu::new`: the font table at 0x000, everything else zero and `PC` at 0x200. */
  function New(): (c: Cpu)
    ensures c.IsReset()
    ensures !c.frameBufferUpdated
    ensures forall a :: 0 <= a < |FONTSET| ==> c.memory[a] == FONTSET[a]
    ensures forall a :: |FONTSET| <= a < MEMORY_SIZE ==> c.memory[a] == 0
  {
    Cpu(
      memory := Blit(seq(MEMORY_SIZE, _ => 0), FONTSET, 0, 0),
      stack := seq(STACK_SIZE, _ => 0),
      v := seq(REGISTER_COUNT, _ => 0),
      i := 0,
      pc := PROGRAM_START,
      sp := 0,
      keypad := seq(KEY_COUNT, _ => false),
      dt := 0,
      st := 0,
      frameBuffer := BlankScreen(),
      frameBufferUpdated := false)
  }

  /** `Cpu::load`: installs a full-size program image at 0x200 and resets every other
      field; memory below 0x200 keeps whatever it held. */
  function Load(c: Cpu, rom: seq<Byte>): (r: Cpu)
    requires c.Valid() && |rom| == ROM_SIZE
    ensures r.IsReset()
    ensures r.frameBufferUpdated
    ensures forall a :: 0 <= a < PROGRAM_START ==> r.memory[a] == c.memory[a]
    ensures forall k :: 0 <= k < ROM_SIZE ==> r.memory[PROGRAM_START + k] == rom[k]
  {
    c.(
      memory := Blit(c.memory, rom, PROGRAM_START, 0),
      stack := seq(STACK_SIZE, _ => 0),
      v := seq(REGISTER_COUNT, _ => 0),
      i := 0,
      pc := PROGRAM_START,
      sp := 0,
      keypad := seq(KEY_COUNT, _ => false),
      dt := 0,
      st := 0,
      frameBuffer := BlankScreen(),
      frameBufferUpdated := true)
  }

  /** Two states that agree below 0x200 load to the same state: nothing else of the prior
      state survives a load. */
  lemma LoadForgetsPriorState(c1: Cpu, c2: Cpu, rom: seq<Byte>)
    requires c1.Valid() && c2.Valid() && |rom| == ROM_SIZE
    requires c1.memory[..PROGRAM_START] == c2.memory[..PROGRAM_START]
    ensures Load(c1, rom) == Load(c2, rom)
  {
    var r1, r2 := Load(c1, rom), Load(c2, rom);
    forall a | 0 <= a < MEMORY_SIZE
      ensures r1.memory[a] == r2.memory[a]
    {
      if a < PROGRAM_START {
        assert c1.memory[a] == c1.memory[..PROGRAM_START][a];
      } else {
        assert r1.memory[PROGRAM_START + (a - PROGRAM_START)] == rom[a - PROGRAM_START];
      }
    }
    assert r1.memory == r2.memory;
  }

  /** Loading the same image twice is the same as loading it once. */
  lemma LoadIdempotent(c: Cpu, rom: seq<Byte>)
    requires c.Valid() && |rom| == ROM_SIZE
    ensures Load(Load(c, rom), rom) == Load(c, rom)
  {
    var r := Load(c, rom);
    assert r.memory[..PROGRAM_START] == c.memory[..PROGRAM_START];
    LoadForgetsPriorState(r, c, rom);
  }

  /** The host keyboard layout: the character at position k drives key k. */
  const KEY_LAYOUT: string := "X123QWEASDZC4RFV"

  /** The symbol-to-key table of `Cpu::update_keypad`. */
  function KeyIndex(keycode: char): Option<nat> {
    match keycode
    case 'X' => Some(0)
    case '1' => Some(1)
    case '2' => Some(2)
    case '3' => Some(3)
    case 'Q' => Some(4)
    case 'W' => Some(5)
    case 'E' => Some(6)
    case 'A' => Some(7)
    case 'S' => Some(8)
    case 'D' => Some(9)
    case 'Z' => Some(10)
    case 'C' => Some(11)
    case '4' => Some(12)
    case 'R' => Some(13)
    case 'F' => Some(14)
    case 'V' => Some(15)
    case _ => None
  }

  /** The table maps exactly the sixteen layout characters, each to its own position, so
      every key index has exactly one character. */
  lemma KeyIndexMatchesLayout(keycode: char)
    ensures |KEY_LAYOUT| == KEY_COUNT
    ensures forall k :: 0 <= k < KEY_COUNT ==> KeyIndex(KEY_LAYOUT[k]) == Some(k)
    ensures KeyIndex(keycode).Some? <==> keycode in KEY_LAYOUT
    ensures KeyIndex(keycode).Some? ==>
      KeyIndex(keycode).value < KEY_COUNT && KEY_LAYOUT[KeyIndex(keycode).value] == keycode
  {
  }

  /** `Cpu::update_keypad`: a mapped character sets exactly its key to `state`; any other
      character changes nothing. */
  function UpdateKeypad(c: Cpu, keycode: char, state: bool): (r: Cpu)
    requires c.Valid()
    ensures r.Valid()
    ensures KeyIndex(keycode).None? ==> r == c
    ensures KeyIndex(keycode).Some? ==>
      && KeyIndex(keycode).value < KEY_COUNT
      && r.keypad[KeyIndex(keycode).value] == state
      && (forall k :: 0 <= k < KEY_COUNT && k != KeyIndex(keycode).value ==> r.keypad[k] == c.keypad[k])
      && r == c.(keypad := r.keypad)
  {
    match KeyIndex(keycode)
    case None => c
    case Some(k) => c.(keypad := c.keypad[k := state])
  }
}
