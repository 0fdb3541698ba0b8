/** Shared vocabulary of the kernel model: bytes, fixed-width integer conversions,
    NUL-terminated C strings and the Option type used for nullable pointers. */
module Common {

  /** An unsigned 8-bit value (`uint8_t`). */
  type byte = x: int | 0 <= x < 256

  const TWO_32: int := 0x1_0000_0000

  /** The `uint32_t` value a C `int32_t` is converted to (two's complement). */
  function ToUint32(x: int): (u: nat)
    requires -0x8000_0000 <= x < 0x8000_0000
    ensures u < TWO_32
    ensures x >= 0 ==> u == x
    ensures x < 0 ==> u == x + TWO_32
  {
    if x < 0 then x + TWO_32 else x
  }

  datatype Option<T> = None | Some(value: T)

  /** Byte `i` of the C string stored in `s`: positions past the end of `s` read as the
      terminating NUL. */
  function CAt(s: seq<byte>, i: nat): byte
  {
    if i < |s| then s[i] else 0
  }

  /** `strlen`: the index of the first NUL, or the whole sequence when there is none. */
  function Strlen(s: seq<byte>): (n: nat)
    ensures n <= |s|
    ensures forall i :: 0 <= i < n ==> s[i] != 0
    ensures n < |s| ==> s[n] == 0
  {
    if s == [] || s[0] == 0 then 0 else 1 + Strlen(s[1..])
  }

  /** `strncmp(a, b, n) == 0`: the two strings agree at every position below `n` that is
      not past the first NUL of `a` (once `a` ends, equality means `b` ends there too). */
  ghost predicate StrnEq(a: seq<byte>, b: seq<byte>, n: nat)
  {
    forall i :: 0 <= i < n && NoNulBefore(a, i) ==> CAt(a, i) == CAt(b, i)
  }

  ghost predicate NoNulBefore(a: seq<byte>, i: nat)
  {
    forall j :: 0 <= j < i ==> CAt(a, j) != 0
  }

  /** The comparison `strncmp` performs, position by position up to `n`. */
  function StrnCmpEqual(a: seq<byte>, b: seq<byte>, n: nat, k: nat): (r: bool)
    requires k <= n
    requires forall j :: 0 <= j < k ==> CAt(a, j) == CAt(b, j) && CAt(a, j) != 0
    ensures r <==> StrnEq(a, b, n)
    decreases n - k
  {
    if k == n then true
    else if CAt(a, k) != CAt(b, k) then false
    else if CAt(a, k) == 0 then
      assert forall i :: k < i < n ==> !NoNulBefore(a, i);
      true
    else
      StrnCmpEqual(a, b, n, k + 1)
  }
}
