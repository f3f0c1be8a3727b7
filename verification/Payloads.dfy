// The payloads the client puts into its requests.
module Payloads {
  import opened Bytes
  import opened Memory
  import opened Wire
  import opened Hex

  const NAME_FIELD_SIZE := 255

  // The client name in its field: at most 254 characters, so that the last
  // byte stays NUL.
  function NamePayload(name: bytes): (p: bytes)
    ensures |p| == NAME_FIELD_SIZE
  {
    Field(name, NAME_FIELD_SIZE - 1) + [0]
  }

  function PublicKeyPayload(name: bytes, publicKey: bytes): (p: bytes)
    ensures |p| == NAME_FIELD_SIZE + |publicKey|
  {
    NamePayload(name) + Field(publicKey, |publicKey|)
  }

  // size, file name, content; the buffer's last byte is not part of it.
  function FilePayload(fileName: bytes, content: bytes): (p: bytes)
    ensures |p| == 259 + |content|
  {
    Be32(|content| % 0x1_0000_0000) + Field(fileName, 255) + Field(content, |content|)
  }

  method CreateFilePayloadBuffer(fileName: bytes, content: bytes) returns (buffer: array<byte>)
    ensures fresh(buffer)
    ensures buffer.Length == 259 + |content| + 1
    ensures buffer[..259 + |content|] == FilePayload(fileName, content)
  {
    var totalPayloadSize := 4 + 255 + |content|;
    buffer := new byte[totalPayloadSize + 1];
    Memset(buffer, 0, totalPayloadSize);
    ghost var s0 := buffer[..];
    assert s0[..totalPayloadSize] == Fill(totalPayloadSize, 0);
    Memcpy(buffer, 0, Be32(|content| % 0x1_0000_0000));
    ghost var s1 := buffer[..];
    Strncpy(buffer, 4, fileName, 255);
    ghost var s2 := buffer[..];
    Strcpy(buffer, 4 + 255, content);
    BufferContents(s0, s1, s2, buffer[..], fileName, content);
  }

  // Writing right after a finished part.
  lemma PatchAfter(done: bytes, rest: bytes, src: bytes)
    requires |src| <= |rest|
    ensures Patched(done + rest, |done|, src) == done + src + rest[|src|..]
  {}

  lemma ThreePatches(s: bytes, x: bytes, y: bytes, z: bytes)
    requires |x| + |y| + |z| <= |s|
    ensures Patched(Patched(Patched(s, 0, x), |x|, y), |x| + |y|, z) == x + y + z + s[|x| + |y| + |z|..]
  {
    hide Patched;
    assert s == [] + s && x == [] + x;
    PatchAfter([], s, x);
    PatchAfter(x, s[|x|..], y);
    PatchAfter(x + y, s[|x|..][|y|..], z);
    assert s[|x|..][|y|..][|z|..] == s[|x| + |y| + |z|..];
  }

  lemma BufferContents(s0: bytes, s1: bytes, s2: bytes, s3: bytes, fileName: bytes, content: bytes)
    requires |s0| == 260 + |content| && s0[..259 + |content|] == Fill(259 + |content|, 0)
    requires s1 == Patched(s0, 0, Be32(|content| % 0x1_0000_0000))
    requires s2 == Patched(s1, 4, Field(fileName, 255))
    requires s3 == Patched(s2, 259, CStr(content) + [0])
    ensures s3[..259 + |content|] == FilePayload(fileName, content)
  {
    hide Patched; hide CStr; hide Field; hide Be32; hide Fill; hide FilePayload;
    var size, name, text := Be32(|content| % 0x1_0000_0000), Field(fileName, 255), CStr(content) + [0];
    ThreeParts(s0, s1, s2, s3, size, name, text);
    LastPart(s0, s3, size + name, content);
    FilePayloadIs(fileName, content);
  }

  lemma ThreeParts(s0: bytes, s1: bytes, s2: bytes, s3: bytes, x: bytes, y: bytes, z: bytes)
    requires |x| == 4 && |y| == 255 && 259 + |z| <= |s0|
    requires s1 == Patched(s0, 0, x) && s2 == Patched(s1, 4, y) && s3 == Patched(s2, 259, z)
    ensures s3 == x + y + z + s0[259 + |z|..]
  {
    hide Patched;
    ThreePatches(s0, x, y, z);
  }

  lemma FilePayloadIs(fileName: bytes, content: bytes)
    ensures FilePayload(fileName, content)
         == Be32(|content| % 0x1_0000_0000) + Field(fileName, 255) + Field(content, |content|)
  {}

  lemma LastPart(s0: bytes, s3: bytes, front: bytes, content: bytes)
    requires |front| == 259 && |s0| == 260 + |content| && s0[..259 + |content|] == Fill(259 + |content|, 0)
    requires s3 == front + (CStr(content) + [0]) + s0[259 + |CStr(content) + [0]|..]
    ensures |s3| == |s0| && s3[..259 + |content|] == front + Field(content, |content|)
  {
    hide CStr; hide Field;
    assert |CStr(content) + [0]| == |CStr(content)| + 1;
    assert s3[259..260 + |CStr(content)|] == CStr(content) + [0];
    assert s3[260 + |CStr(content)|..] == s0[260 + |CStr(content)|..];
    ContentPart(s0, s3, content);
    assert s3[..259 + |content|] == front + s3[259..259 + |content|];
  }

  // After strcpy the rest of the buffer still holds the zeros of memset.
  lemma ContentPart(s0: bytes, s3: bytes, content: bytes)
    requires |s0| == |s3| == 260 + |content| && s0[..259 + |content|] == Fill(259 + |content|, 0)
    requires s3[259..259 + |CStr(content)| + 1] == CStr(content) + [0]
    requires s3[259 + |CStr(content)| + 1..] == s0[259 + |CStr(content)| + 1..]
    ensures s3[259..259 + |content|] == Field(content, |content|)
  {
    hide CStr;
    var n, k := 259 + |content|, 259 + |CStr(content)|;
    forall i | 259 <= i < n ensures s3[i] == Field(content, |content|)[i - 259] {
      if i <= k {
        assert s3[i] == s3[259..k + 1][i - 259];
      } else {
        assert s3[i] == s3[k + 1..][i - k - 1] == s0[i] == s0[..n][i];
      }
    }
  }

  // payloadSize is a uint32_t and so many bytes are sent.
  function SentFilePayload(fileName: bytes, content: bytes): (p: bytes)
    ensures |p| < 0x1_0000_0000
  {
    FilePayload(fileName, content)[..(259 + |content|) % 0x1_0000_0000]
  }

  // How a receiver takes the payload apart.
  function ParseFilePayload(p: bytes): Option<(bytes, bytes)> {
    if |p| < 259 then None
    else
      var size := FromBe32(p[..4]);
      if |p| != 259 + size then None
      else Some((CStr(p[4..259]), p[259..]))
  }

  lemma FieldLength(s: bytes, n: nat)
    ensures |CStr(Field(s, n))| <= Min(|CStr(s)|, n)
  {
    var k := Min(|CStr(s)|, n);
    var c := CStr(Field(s, n));
    assert k < n ==> Field(s, n)[k] == 0;
    forall j | 0 <= j < |c| ensures Field(s, n)[j] != 0 {
      assert c[j] in c;
    }
  }

  // A name survives its field exactly when it has no NUL and fits.
  lemma FieldTextExact(s: bytes, n: nat)
    ensures CStr(Field(s, n)) == s <==> 0 !in s && |s| <= n
  {
    if 0 !in s && |s| <= n {
      FieldText(s, n);
    }
    if CStr(Field(s, n)) == s {
      FieldLength(s, n);
    }
  }

  lemma PrefixFree(s: bytes, n: nat)
    requires n <= |s| && 0 !in s
    ensures 0 !in s[..n]
  {}

  // A longer text is cut after n characters.
  lemma FieldCut(s: bytes, n: nat)
    ensures CStr(Field(s, n)) == CStr(s)[..Min(|CStr(s)|, n)]
  {
    hide CStr; hide Fill; hide Field;
    var k := Min(|CStr(s)|, n);
    var c := CStr(s)[..k];
    FieldIs(s, n);
    PrefixFree(CStr(s), k);
    CStrThenZeros(c, n - k);
  }

  lemma FieldIs(s: bytes, n: nat)
    ensures var k := Min(|CStr(s)|, n); Field(s, n) == CStr(s)[..k] + Fill(n - k, 0)
  {
    hide CStr;
  }

  // The name field holds the first 254 characters of the name.
  lemma NamePayloadCut(name: bytes)
    ensures |NamePayload(name)| == 255
    ensures CStr(NamePayload(name)) == CStr(name)[..Min(|CStr(name)|, 254)]
  {
    hide CStr; hide Field;
    CStrBeforeNul(Field(name, NAME_FIELD_SIZE - 1));
    FieldCut(name, NAME_FIELD_SIZE - 1);
  }

  // A client name survives its field exactly when it has no NUL and at most
  // 254 characters.
  lemma NamePayloadExact(name: bytes)
    ensures CStr(NamePayload(name)) == name <==> 0 !in name && |name| <= NAME_FIELD_SIZE - 1
  {
    CStrBeforeNul(Field(name, NAME_FIELD_SIZE - 1));
    FieldTextExact(name, NAME_FIELD_SIZE - 1);
  }

  lemma {:induction false} CStrBeforeNul(s: bytes)
    ensures CStr(s + [0]) == CStr(s)
    decreases |s|
  {
    if s == [] {
    } else {
      assert (s + [0])[1..] == s[1..] + [0];
      CStrBeforeNul(s[1..]);
    }
  }

  // Both fields survive exactly when the name does and the key holds nothing
  // but zeros after its first one.
  lemma PublicKeyPayloadExact(name: bytes, key: bytes)
    ensures CStr(PublicKeyPayload(name, key)[..NAME_FIELD_SIZE]) == name
         && PublicKeyPayload(name, key)[NAME_FIELD_SIZE..] == key
       <==> 0 !in name && |name| <= NAME_FIELD_SIZE - 1 && forall i | |CStr(key)| <= i < |key| :: key[i] == 0
  {
    var p := PublicKeyPayload(name, key);
    assert p[..NAME_FIELD_SIZE] == NamePayload(name) && p[NAME_FIELD_SIZE..] == Field(key, |key|);
    NamePayloadExact(name);
    WholeFieldExact(key);
  }

  lemma WholeFieldExact(s: bytes)
    ensures Field(s, |s|) == s <==> forall i | |CStr(s)| <= i < |s| :: s[i] == 0
  {
    var f, n := Field(s, |s|), |CStr(s)|;
    assert f[..n] == s[..n];
    assert forall i | n <= i < |s| :: f[i] == 0;
    if forall i | n <= i < |s| :: s[i] == 0 {
      assert forall i | 0 <= i < |s| :: f[i] == s[i] by {
        assert forall i | 0 <= i < n :: f[..n][i] == s[..n][i];
      }
    }
  }

  lemma FilePayloadParts(fileName: bytes, content: bytes)
    requires 0 !in content && 259 + |content| < 0x1_0000_0000
    ensures ParseFilePayload(SentFilePayload(fileName, content)) == Some((CStr(Field(fileName, 255)), content))
  {
    hide CStr; hide Field; hide Be32; hide FromBe32;
    var n := |content|;
    Be32RoundTrip(n);
    CStrWhole(content);
    WholeField(content);
    var p := SentFilePayload(fileName, content);
    assert (259 + n) % 0x1_0000_0000 == 259 + n && n % 0x1_0000_0000 == n;
    assert p == FilePayload(fileName, content);
    assert p[..4] == Be32(n) && p[4..259] == Field(fileName, 255) && p[259..] == content;
  }

  lemma WholeField(s: bytes)
    requires 0 !in s
    ensures Field(s, |s|) == s
  {
    CStrWhole(s);
  }

  // The receiver gets back name and content exactly when the name fits its
  // field, has no NUL, and the total size fits payloadSize.
  lemma FilePayloadRoundTrip(fileName: bytes, cipher: bytes)
    ensures ParseFilePayload(SentFilePayload(fileName, HexOf(cipher))) == Some((fileName, HexOf(cipher)))
       <==> 0 !in fileName && |fileName| <= 255 && 259 + |HexOf(cipher)| < 0x1_0000_0000
  {
    hide CStr; hide Field; hide Be32; hide FromBe32;
    var content := HexOf(cipher);
    HexIsText(cipher);
    if 259 + |content| < 0x1_0000_0000 {
      FilePayloadParts(fileName, content);
      FieldTextExact(fileName, 255);
    } else {
      Truncated(|content|);
    }
  }

  lemma Truncated(n: nat)
    requires 259 + n >= 0x1_0000_0000
    ensures (259 + n) % 0x1_0000_0000 < 259 + n
  {}

  // The size field is the content's length with the high byte first; it differs
  // from payloadSize by 259, modulo 2^32.
  lemma SizeFieldAgrees(fileName: bytes, content: bytes)
    ensures var p := FilePayload(fileName, content);
            var size := 0x100_0000 * (p[0] as nat) + 0x1_0000 * (p[1] as nat) + 0x100 * (p[2] as nat) + p[3] as nat;
            && size == |content| % 0x1_0000_0000
            && (size + 259) % 0x1_0000_0000 == |SentFilePayload(fileName, content)|
  {
    hide Be32; hide FromBe32; hide Field;
    var n := |content| % 0x1_0000_0000;
    var p := FilePayload(fileName, content);
    assert p[..4] == Be32(n);
    assert Be32(n) == [p[0], p[1], p[2], p[3]];
    BigEndian32(n, p[0], p[1], p[2], p[3]);
    ModAdd(|content|);
    assert |SentFilePayload(fileName, content)| == (259 + |content|) % 0x1_0000_0000;
  }

  lemma ModAdd(n: nat)
    ensures (n % 0x1_0000_0000 + 259) % 0x1_0000_0000 == (259 + n) % 0x1_0000_0000
  {}
}
