/**
 * Value types shared by the resolver, downloader and supervisor models:
 * the library's error enum, the fixed-width integers the source uses, and
 * the optional and fallible results its functions return.
 */
module Common {

  /** Rust's `Option<T>`. */
  datatype Option<T> = None | Some(value: T)

  /** The library's `LibError` (src/lib.rs:19-34). Only `Ver` carries data the
      model inspects; the wrapped foreign errors are reduced to their tag. */
  datatype LibError =
    | Io
    | Parse
    | Net
    | Ver(version: string)
    | Json
    | Misc(message: string)
    | Var

  /** Rust's `Result<T, LibError>`. */
  datatype Result<T> = Ok(value: T) | Err(error: LibError)

  /** Whether a call returns at all: `Panics` stands for a Rust panic
      (an index out of range), which is not an error value but ends the thread. */
  datatype Outcome<T> = Completes(value: T) | Panics

  /** Rust's `u8` and `u32`. */
  newtype byte = x: int | 0 <= x < 0x100
  newtype u32 = x: int | 0 <= x < 0x1_0000_0000
}
