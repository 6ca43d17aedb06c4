/** Machine-word types and the fault-carrying result type shared by every module of the
    CHIP-8 model. */
module Types {

  /** An unsigned 8-bit value (Rust `u8`). Wrap-around is written out where the source wraps. */
  type Byte = x: int | 0 <= x < 0x100

  /** An unsigned 16-bit value (Rust `u16`), used for `I`, `PC` and return addresses. */
  type U16 = x: int | 0 <= x < 0x1_0000

  datatype Option<+T> = None | Some(value: T)

  /** The ways one machine cycle can fail. The source terminates the process or panics in
      each of these situations; the model returns the reason instead. */
  datatype Fault =
    | IllegalOpcode(opcode: U16)   // an opcode no arm of the decoder accepts
    | StackOverflow                // CALL with all sixteen stack slots in use
    | StackUnderflow               // RET with an empty stack
    | MemoryOutOfRange             // a fetch, sprite read or I-relative access past 0xFFF
    | KeyOutOfRange(key: Byte)     // a key test on a register value that is not a key index
    | IndexOverflow                // `I + Vx` does not fit in 16 bits

  datatype Result<+T> = Ok(value: T) | Err(fault: Fault)

  /** Bitwise operations on bytes, computed on `bv8` exactly as the source does. */
  function BitOr(a: Byte, b: Byte): Byte { ((a as bv8) | (b as bv8)) as int }

  function BitAnd(a: Byte, b: Byte): Byte { ((a as bv8) & (b as bv8)) as int }

  function BitXor(a: Byte, b: Byte): Byte { ((a as bv8) ^ (b as bv8)) as int }
}
