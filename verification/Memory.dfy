// The C library's block and string copies, as loops over a buffer.
module Memory {
  import opened Bytes

  // buffer[at..] after writing src there.
  function Patched(buffer: bytes, at: nat, src: bytes): (r: bytes)
    requires at + |src| <= |buffer|
    ensures |r| == |buffer|
  {
    buffer[..at] + src + buffer[at + |src|..]
  }

  method Memcpy(dst: array<byte>, at: nat, src: bytes)
    requires at + |src| <= dst.Length
    modifies dst
    ensures dst[..] == Patched(old(dst[..]), at, src)
  {
    for i := 0 to |src|
      invariant forall k | 0 <= k < dst.Length ::
        dst[k] == if at <= k < at + i then src[k - at] else old(dst[k])
    {
      dst[at + i] := src[i];
    }
  }

  method Memset(dst: array<byte>, b: byte, n: nat)
    requires n <= dst.Length
    modifies dst
    ensures dst[..] == Patched(old(dst[..]), 0, Fill(n, b))
  {
    for i := 0 to n
      invariant forall k | 0 <= k < dst.Length :: dst[k] == if k < i then b else old(dst[k])
    {
      dst[i] := b;
    }
  }

  // Copies at most n characters of src and fills the rest of the n with zeros.
  method Strncpy(dst: array<byte>, at: nat, src: bytes, n: nat)
    requires at + n <= dst.Length
    modifies dst
    ensures dst[..] == Patched(old(dst[..]), at, Field(src, n))
  {
    hide CStr; hide Field; hide Patched;
    ghost var field := Field(src, n);
    StrncpyField(src, n);
    var i := 0;
    while i < n && i < |src| && src[i] != 0
      invariant 0 <= i <= n && i <= |CStr(src)|
      invariant forall k | 0 <= k < dst.Length ::
        dst[k] == if at <= k < at + i then field[k - at] else old(dst[k])
    {
      assert src[i] == field[i] by { InString(src, i); }
      dst[at + i] := src[i];
      i := i + 1;
    }
    if i < n && i < |src| {
      EndOfString(src, i);
    }
    ghost var copied := i;
    while i < n
      invariant copied <= i <= n
      invariant forall k | 0 <= k < dst.Length ::
        dst[k] == if at <= k < at + i then field[k - at] else old(dst[k])
    {
      dst[at + i] := 0;
      i := i + 1;
    }
    PatchedAt(old(dst[..]), dst[..], at, field);
  }

  lemma PatchedAt(before: bytes, after: bytes, at: nat, src: bytes)
    requires at + |src| <= |before| == |after|
    requires forall k | 0 <= k < |after| :: after[k] == if at <= k < at + |src| then src[k - at] else before[k]
    ensures after == Patched(before, at, src)
  {}

  lemma InString(s: bytes, i: nat)
    requires i <= |CStr(s)| && i < |s| && s[i] != 0
    ensures i < |CStr(s)|
  {}

  lemma EndOfString(s: bytes, i: nat)
    requires i <= |CStr(s)| && i < |s| && s[i] == 0
    ensures i == |CStr(s)|
  {
    NoNulInside(s);
  }

  lemma NoNulInside(s: bytes)
    ensures forall i | 0 <= i < |CStr(s)| :: s[i] != 0
  {
    forall i | 0 <= i < |CStr(s)| ensures s[i] != 0 {
      assert CStr(s)[i] in CStr(s);
    }
  }

  lemma StrncpyField(src: bytes, n: nat)
    ensures forall k | 0 <= k < n :: Field(src, n)[k] == if k < Min(|CStr(src)|, n) then src[k] else 0
  {}

  // Copies src up to its first NUL, and a NUL.
  method Strcpy(dst: array<byte>, at: nat, src: bytes)
    requires at + |CStr(src)| + 1 <= dst.Length
    modifies dst
    ensures dst[..] == Patched(old(dst[..]), at, CStr(src) + [0])
  {
    hide CStr; hide Patched;
    var i := 0;
    while i < |src| && src[i] != 0
      invariant 0 <= i <= |CStr(src)|
      invariant forall k | 0 <= k < dst.Length ::
        dst[k] == if at <= k < at + i then src[k - at] else old(dst[k])
    {
      InString(src, i);
      dst[at + i] := src[i];
      i := i + 1;
    }
    if i < |src| {
      EndOfString(src, i);
    }
    dst[at + i] := 0;
    PatchedAt(old(dst[..]), dst[..], at, CStr(src) + [0]);
  }
}
