/** A byte, as the kernel's buffers, the disk and the boot image hold them, and memcpy (lib.c). */
module Octets {
  newtype Byte = x: int | 0 <= x < 256

  /** memcpy to `at`, of bytes that do not lie in the area they are copied to. */
  method Memcpy(dst: array<Byte>, at: nat, src: seq<Byte>)
    requires at + |src| <= dst.Length
    modifies dst
    ensures dst[..] == old(dst[..at]) + src + old(dst[at + |src|..])
  {
    var i := 0;
    while i < |src|
      invariant i <= |src|
      invariant dst[..] == old(dst[..at]) + src[..i] + old(dst[at + i..])
    {
      dst[at + i] := src[i];
      assert src[..i + 1] == src[..i] + [src[i]];
      i := i + 1;
    }
    assert src[..i] == src;
  }
}
