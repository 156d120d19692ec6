/** The few notions that several modules share. */
module Basics {
  datatype Option<+T> = None | Some(value: T)

  type Byte = b: int | 0 <= b < 256

  /** A C string without its terminator. */
  type CString = s: seq<Byte> | 0 !in s witness []

  /** The C string that a buffer of bytes holds: the bytes up to the first NUL. */
  function UpToNul(s: seq<Byte>): (r: CString)
    ensures |r| <= |s| && r <= s && (|r| < |s| ==> s[|r|] == 0)
  {
    if s == [] || s[0] == 0 then [] else [s[0]] + UpToNul(s[1..])
  }

  /** A buffer of zeros. */
  function Zeros(n: nat): (r: seq<Byte>)
    ensures |r| == n && forall i :: 0 <= i < n ==> r[i] == 0
  {
    seq<Byte>(n, i => 0)
  }
}
