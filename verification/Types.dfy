/** The shared vocabulary of server and protocol: enumerations, machine integers and
    fixed-size names. */
module TrisTypes {

  datatype Option<+T> = None | Some(value: T)

  const UINT32_LIMIT: nat := 0x1_0000_0000

  type u8 = x: int | 0 <= x < 0x100
  type u32 = x: int | 0 <= x < 0x1_0000_0000

  type i32 = x: int | -0x8000_0000 <= x < 0x8000_0000

  /** Two's complement reinterpretation, as the casts between `int` and `uint32_t` do. */
  function AsU32(x: i32): u32 { if x < 0 then x + 0x1_0000_0000 else x }

  function AsI32(x: u32): i32 { if x >= 0x8000_0000 then x - 0x1_0000_0000 else x }

  /** The two casts keep the value modulo 2^32, which pins both within their ranges. */
  lemma SignRoundTrip(v: u32)
    ensures AsU32(AsI32(v)) == v
    ensures AsI32(v) == v || AsI32(v) == v - 0x1_0000_0000
  {
  }

  datatype Player = PlayerX | PlayerO

  datatype GameState = GameNew | GameWaiting | GameInProgress | GameFinished

  datatype GameResult = ResultWin | ResultLoss | ResultDraw | ResultNone

  datatype Mark = Blank | MarkX | MarkO

  /** The seat value that means "nobody"; real sockets are never -1. */
  const NOBODY: int := -1

  /** A 32-byte buffer holding a NUL-terminated string. */
  type Name = n: seq<u8> | |n| == 32 witness Zeros(32)

  const NO_NAME: Name := Zeros(32)

  function Zeros(n: nat): (z: seq<u8>)
    ensures |z| == n && forall i :: 0 <= i < n ==> z[i] == 0
  {
    seq(n, _ => 0)
  }

  /** Length of a C string: the bytes before the first NUL. */
  function CLength(s: seq<u8>): (n: nat)
    ensures n <= |s|
  {
    if s == [] || s[0] == 0 then 0 else 1 + CLength(s[1..])
  }

  /** `strncpy(dst, src, size - 1); dst[size - 1] = '\0'` into a buffer of the given size. */
  function CopyString(src: seq<u8>, size: nat): (s: seq<u8>)
    requires size > 0
    ensures |s| == size
  {
    var k := if CLength(src) < size - 1 then CLength(src) else size - 1;
    src[..k] + Zeros(size - k)
  }

  function CopyName(src: seq<u8>): Name { CopyString(src, 32) }

  lemma {:induction false} CLengthOfPadded(s: seq<u8>, k: nat, pad: nat)
    requires k <= CLength(s) && 0 < pad
    ensures CLength(s[..k] + Zeros(pad)) == k
  {
    var t := s[..k] + Zeros(pad);
    if k > 0 {
      assert t[1..] == s[1..][..k - 1] + Zeros(pad);
      CLengthOfPadded(s[1..], k - 1, pad);
    }
  }

  lemma {:induction false} CLengthBytes(s: seq<u8>, i: nat)
    requires i < |s|
    ensures i < CLength(s) <==> forall j :: 0 <= j <= i ==> s[j] != 0
  {
    if i > 0 && s[0] != 0 {
      CLengthBytes(s[1..], i - 1);
      assert forall j :: 0 <= j <= i - 1 ==> s[1..][j] == s[j + 1];
    }
  }

  /** Byte i of a copied string is that of the source, if the string reaches so far and it is not
      the last byte of the buffer; all others are zero. */
  lemma CopyStringBytes(src: seq<u8>, size: nat, i: nat)
    requires i < size
    ensures CopyString(src, size)[i] ==
      if i < size - 1 && i < |src| && (forall j :: 0 <= j <= i ==> src[j] != 0) then src[i] else 0
  {
    if i < |src| { CLengthBytes(src, i); }
  }

  /** Copying a name that was already copied changes nothing, so a name survives every hop
      from the client table through a game and a lobby entry to the wire. */
  lemma CopyNameIdempotent(src: seq<u8>)
    ensures CopyName(CopyName(src)) == CopyName(src)
  {
    var k := if CLength(src) < 31 then CLength(src) else 31;
    var n := CopyName(src);
    CLengthOfPadded(src, k, 32 - k);
    assert n[..k] == src[..k];
  }
}
