/** Shared vocabulary: the `u8` of the source, an option type, and the way a panic is recorded. */
module Common {

  /** Rust's `u8`. */
  type Byte = x: int | 0 <= x < 256

  datatype Option<T> = None | Some(value: T)

  /** The reasons for which the source calls `panic!` (directly, or through `unwrap`/`expect`). */
  datatype Panic =
    | ExtraData            // a single-valued command received a second data line
    | UnparsableCoordinate // a piece of the cursor report is not a decimal `u8`
    | MissingCoordinate    // the cursor report has fewer than two pieces (`position_vector[1]`)
    | MissingOutput        // `build` unwrapped an output that no data line ever set
    | ExpectFailed         // a provider called `expect` on a result that is not `Success`
    | Overflow             // a `u8` addition overflowed (debug builds panic on it)

  /** A computation of the source either returns a value or panics (the thread aborts). */
  datatype Run<T> = Returned(value: T) | Panicked(reason: Panic)
}
