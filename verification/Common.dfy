/** Small functions that several models use. */
module Common {
  function Bit(b: bool): nat
  {
    if b then 1 else 0
  }

  /** The sequence without its element at `i`. */
  function Remove<T>(s: seq<T>, i: nat): seq<T>
    requires i < |s|
  {
    s[..i] + s[i + 1..]
  }
}
