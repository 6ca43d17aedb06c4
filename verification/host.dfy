/** The WebAssembly-facing wrapper `Chip8Cpu` (src/lib.rs): it pads a ROM of any length
    up to the program area, forwards cycles and key events, and hands the screen to the
    page as one flat row-major byte vector. */
module Host {
  import opened Types
  import opened Machine
  import Interpreter

  datatype Chip8Cpu = Chip8Cpu(cpu: Cpu)

  /** `Chip8Cpu::new`: a wrapper around a freshly reset machine. */
  function HostNew(): (h: Chip8Cpu)
    ensures h.cpu.Valid() && h.cpu.IsReset() && !h.cpu.frameBufferUpdated
    ensures forall a :: 0 <= a < |FONTSET| ==> h.cpu.memory[a] == FONTSET[a]
    ensures forall a :: |FONTSET| <= a < MEMORY_SIZE ==> h.cpu.memory[a] == 0
  {
    Chip8Cpu(New())
  }

  /** The zero-filled program-area image with `rom` at its start. */
  function PadRom(rom: seq<Byte>): (image: seq<Byte>)
    requires |rom| <= ROM_SIZE
    ensures |image| == ROM_SIZE
    ensures forall k :: 0 <= k < |rom| ==> image[k] == rom[k]
    ensures forall k :: |rom| <= k < ROM_SIZE ==> image[k] == 0
  {
    Blit(seq(ROM_SIZE, _ => 0), rom, 0, 0)
  }

  /** `Chip8Cpu::load`: pad and load. A ROM longer than the program area indexes past the
      end of the fixed-size buffer, which panics in the source and is a fault here. */
  function HostLoad(h: Chip8Cpu, rom: seq<Byte>): (r: Result<Chip8Cpu>)
    requires h.cpu.Valid()
    ensures r.Ok? <==> |rom| <= ROM_SIZE
    ensures r.Err? ==> r.fault == MemoryOutOfRange
    ensures r.Ok? ==>
      && r.value.cpu.Valid() && r.value.cpu.IsReset() && r.value.cpu.frameBufferUpdated
      && (forall k :: 0 <= k < |rom| ==> r.value.cpu.memory[PROGRAM_START + k] == rom[k])
      && (forall a :: PROGRAM_START + |rom| <= a < MEMORY_SIZE ==> r.value.cpu.memory[a] == 0)
      && (forall a :: 0 <= a < PROGRAM_START ==> r.value.cpu.memory[a] == h.cpu.memory[a])
  {
    if |rom| > ROM_SIZE then Err(MemoryOutOfRange)
    else
      var loaded := Load(h.cpu, PadRom(rom));
      assert forall a :: PROGRAM_START + |rom| <= a < MEMORY_SIZE ==>
        loaded.memory[a] == PadRom(rom)[a - PROGRAM_START];
      Ok(Chip8Cpu(loaded))
  }

  /** `Chip8Cpu::emulate_cycle`: the wrapped machine runs one cycle; its successor state or
      fault is the wrapper's. */
  function HostCycle(h: Chip8Cpu, random: Byte): (r: Result<Chip8Cpu>)
    requires h.cpu.Valid()
    ensures r.Ok? ==> r.value.cpu.Valid()
    ensures r.Ok? <==> Interpreter.Cycle(h.cpu, random).Ok?
    ensures r.Ok? ==> r.value.cpu == Interpreter.Cycle(h.cpu, random).value
    ensures r.Err? ==> r.fault == Interpreter.Cycle(h.cpu, random).fault
  {
    match Interpreter.Cycle(h.cpu, random)
    case Ok(next) => Ok(Chip8Cpu(next))
    case Err(fault) => Err(fault)
  }

  /** `Chip8Cpu::update_keypad`: a mapped character sets exactly its key; any other
      character changes nothing. */
  function HostUpdateKeypad(h: Chip8Cpu, keycode: char, state: bool): (r: Chip8Cpu)
    requires h.cpu.Valid()
    ensures r.cpu.Valid()
    ensures KeyIndex(keycode).None? ==> r == h
    ensures KeyIndex(keycode).Some? ==>
      && KeyIndex(keycode).value < KEY_COUNT
      && r.cpu.keypad[KeyIndex(keycode).value] == state
      && (forall k :: 0 <= k < KEY_COUNT && k != KeyIndex(keycode).value ==> r.cpu.keypad[k] == h.cpu.keypad[k])
      && r.cpu == h.cpu.(keypad := r.cpu.keypad)
  {
    Chip8Cpu(UpdateKeypad(h.cpu, keycode, state))
  }

  /** Where pixel (x, y) sits in the flat row-major vector. */
  function PixelOffset(y: nat, x: nat): nat {
    y * WIDTH + x
  }

  /** One pixel as the byte the page receives. */
  function PixelByte(lit: bool): Byte {
    if lit then 1 else 0
  }

  function RowBytes(row: seq<bool>): (r: seq<Byte>)
    ensures |r| == |row|
    ensures forall x :: 0 <= x < |row| ==> r[x] == PixelByte(row[x])
  {
    seq(|row|, x requires 0 <= x < |row| => PixelByte(row[x]))
  }

  /** Rows of width `WIDTH` concatenated top to bottom: pixel (x, y) lands at
      `y * WIDTH + x`. */
  function Flatten(rows: seq<seq<bool>>): (r: seq<Byte>)
    requires forall y :: 0 <= y < |rows| ==> |rows[y]| == WIDTH
    ensures |r| == |rows| * WIDTH
    ensures forall y, x :: 0 <= y < |rows| && 0 <= x < WIDTH ==>
      r[PixelOffset(y, x)] == PixelByte(rows[y][x])
  {
    if |rows| == 0 then []
    else
      var head, rest := RowBytes(rows[0]), Flatten(rows[1..]);
      assert forall y, x :: 0 <= y < |rows| && 0 <= x < WIDTH ==>
        (head + rest)[PixelOffset(y, x)] == PixelByte(rows[y][x])
      by {
        forall y, x | 0 <= y < |rows| && 0 <= x < WIDTH
          ensures (head + rest)[PixelOffset(y, x)] == PixelByte(rows[y][x])
        {
          if y == 0 {
            assert PixelOffset(y, x) == x;
          } else {
            assert PixelOffset(y, x) == WIDTH + PixelOffset(y - 1, x);
            assert rows[1..][y - 1] == rows[y];
          }
        }
      }
      head + rest
  }

  /** `Chip8Cpu::frame_buffer`: the screen, one byte per pixel, row-major. */
  function FrameBuffer(h: Chip8Cpu): (bytes: seq<Byte>)
    requires h.cpu.Valid()
    ensures |bytes| == WIDTH * HEIGHT
    ensures forall y, x :: 0 <= y < HEIGHT && 0 <= x < WIDTH ==>
      bytes[PixelOffset(y, x)] == PixelByte(h.cpu.frameBuffer[y][x])
  {
    Flatten(h.cpu.frameBuffer)
  }

  /** `Chip8Cpu::frame_buffer_updated`. */
  function FrameBufferUpdated(h: Chip8Cpu): bool {
    h.cpu.frameBufferUpdated
  }

  /** How the page reads the flat vector back into a screen: pixel (x, y) is lit when the
      byte at `y * WIDTH + x` is non-zero. */
  function Unflatten(bytes: seq<Byte>): (fb: seq<seq<bool>>)
    requires |bytes| == WIDTH * HEIGHT
    ensures ScreenShaped(fb)
  {
    seq(HEIGHT, y requires 0 <= y < HEIGHT =>
      seq(WIDTH, x requires 0 <= x < WIDTH => bytes[PixelOffset(y, x)] != 0))
  }

  /** Reading the flat vector back gives exactly the machine's screen: the flattening
      loses nothing and puts no pixel in another's place. */
  lemma FrameBufferRoundTrip(h: Chip8Cpu)
    requires h.cpu.Valid()
    ensures Unflatten(FrameBuffer(h)) == h.cpu.frameBuffer
  {
    var fb, bytes := h.cpu.frameBuffer, FrameBuffer(h);
    var back := Unflatten(bytes);
    forall y | 0 <= y < HEIGHT
      ensures back[y] == fb[y]
    {
      assert forall x :: 0 <= x < WIDTH ==> back[y][x] == (bytes[PixelOffset(y, x)] != 0);
    }
  }

  /** Distinct pixels occupy distinct bytes. */
  lemma PixelOffsetsDistinct(y1: nat, x1: nat, y2: nat, x2: nat)
    requires y1 < HEIGHT && x1 < WIDTH && y2 < HEIGHT && x2 < WIDTH
    requires (y1, x1) != (y2, x2)
    ensures PixelOffset(y1, x1) != PixelOffset(y2, x2)
    ensures PixelOffset(y1, x1) < WIDTH * HEIGHT
  {
  }
}
