/** Types that the other modules share. */
module Common {
  type Bytes = seq<int>

  predicate IsByte(x: int) { 0 <= x < 256 }

  /** The two bytes at `i` are the number `x`, the higher byte first. */
  predicate Short(b: Bytes, i: nat, x: int) {
    i + 2 <= |b| && IsByte(b[i]) && IsByte(b[i + 1]) && x == b[i] * 256 + b[i + 1]
  }

  /** The four bytes at `i` are the number `x`, the highest byte first. */
  predicate Long(b: Bytes, i: nat, x: int) {
    && i + 4 <= |b| && IsByte(b[i]) && IsByte(b[i + 1]) && IsByte(b[i + 2]) && IsByte(b[i + 3])
    && x == b[i] * 0x100_0000 + b[i + 1] * 0x1_0000 + b[i + 2] * 256 + b[i + 3]
  }

  /** The same with the lowest byte first. */
  predicate LongReversed(b: Bytes, i: nat, x: int) {
    && i + 4 <= |b| && IsByte(b[i]) && IsByte(b[i + 1]) && IsByte(b[i + 2]) && IsByte(b[i + 3])
    && x == b[i + 3] * 0x100_0000 + b[i + 2] * 0x1_0000 + b[i + 1] * 256 + b[i]
  }

  datatype Option<T> = None | Some(value: T)
}
