// Requests and responses as bytes on the wire.
module Wire {
  import opened Bytes

  datatype Option<+T> = None | Some(value: T)

  // padding is the byte the compiler leaves between version and code; it goes
  // out with the rest of the struct and may hold anything.
  datatype Request = Request(clientId: bytes, version: byte, padding: byte, code: nat, payload: bytes) {
    // What the fields' C types can hold.
    ghost predicate Valid() {
      |clientId| == 16 && code < 0x1_0000 && |payload| < 0x1_0000_0000
    }
  }

  const HEADER_SIZE := 24

  // sizeof(Request) - sizeof(request.payload) bytes, then the payload.
  function Frame(r: Request): (s: bytes)
    requires r.Valid()
    ensures |s| == HEADER_SIZE + |r.payload|
  {
    r.clientId + [r.version, r.padding] + Le16(r.code) + Le32(|r.payload|) + r.payload
  }

  // Reading one frame off the front of a stream.
  function ParseFrame(s: bytes): Option<(Request, bytes)> {
    if |s| < HEADER_SIZE then None
    else
      var size := FromLe32(s[20..24]);
      if |s| < HEADER_SIZE + size then None
      else Some((Request(s[..16], s[16], s[17], FromLe16(s[18..20]), s[24..24 + size]), s[24 + size..]))
  }

  // Reading a whole stream of frames.
  function ParseAll(s: bytes): Option<seq<Request>>
    decreases |s|
  {
    if s == [] then Some([])
    else match ParseFrame(s)
      case None => None
      case Some((r, rest)) =>
        match ParseAll(rest)
        case None => None
        case Some(rs) => Some([r] + rs)
  }

  lemma ParseFrameOfFrame(r: Request, rest: bytes)
    requires r.Valid()
    ensures ParseFrame(Frame(r) + rest) == Some((r, rest))
  {
    var s := Frame(r) + rest;
    Le16RoundTrip(r.code);
    Le32RoundTrip(|r.payload|);
    assert s[..16] == r.clientId && s[16] == r.version && s[17] == r.padding;
    assert s[18..20] == Le16(r.code) && s[20..24] == Le32(|r.payload|);
    assert s[24..24 + |r.payload|] == r.payload && s[24 + |r.payload|..] == rest;
  }

  function Frames(rs: seq<Request>): bytes
    requires forall r | r in rs :: r.Valid()
  {
    if rs == [] then [] else Frame(rs[0]) + Frames(rs[1..])
  }

  lemma {:induction false} ParseAllOfFrames(rs: seq<Request>)
    requires forall r | r in rs :: r.Valid()
    ensures ParseAll(Frames(rs)) == Some(rs)
    decreases |rs|
  {
    if rs == [] {
    } else {
      ParseFrameOfFrame(rs[0], Frames(rs[1..]));
      ParseAllOfFrames(rs[1..]);
      assert rs == [rs[0]] + rs[1..];
    }
  }

  lemma ParseFrameAppend(s: bytes, t: bytes)
    requires ParseFrame(s).Some?
    ensures ParseFrame(s + t) == Some((ParseFrame(s).value.0, ParseFrame(s).value.1 + t))
  {
    hide FromLe16; hide FromLe32;
    var u := s + t;
    var size := FromLe32(s[20..24]);
    SliceAppend(s, t, 20, 24);
    SliceAppend(s, t, 0, 16);
    SliceAppend(s, t, 18, 20);
    SliceAppend(s, t, 24, 24 + size);
    assert u[24 + size..] == s[24 + size..] + t;
  }

  lemma SliceAppend(s: bytes, t: bytes, i: nat, j: nat)
    requires i <= j <= |s|
    ensures (s + t)[i..j] == s[i..j]
  {}

  // Appending a frame to a stream appends its request.
  lemma {:induction false} ParseAllAppend(s: bytes, rs: seq<Request>, r: Request)
    requires r.Valid() && ParseAll(s) == Some(rs)
    ensures ParseAll(s + Frame(r)) == Some(rs + [r])
    decreases |s|
  {
    hide ParseFrame; hide Frame; hide Request.Valid;
    if s == [] {
      ParseFrameOfFrame(r, []);
      assert s + Frame(r) == Frame(r) + [];
      ParseAllNothing();
      assert rs + [r] == [r] + [];
    } else {
      ParseFrameAppend(s, Frame(r));
      var rest := ParseFrame(s).value.1;
      ParseFrameShrinks(s);
      ParseAllAppend(rest, rs[1..], r);
      assert rs + [r] == [rs[0]] + (rs[1..] + [r]);
    }
  }

  lemma ParseFrameShrinks(s: bytes)
    requires ParseFrame(s).Some?
    ensures |ParseFrame(s).value.1| < |s|
  {}

  lemma ParseAllNothing()
    ensures ParseAll([]) == Some([])
  {}

  // No frame is a proper prefix of another.
  lemma FramesPrefixFree(r: Request, r': Request)
    requires r.Valid() && r'.Valid()
    requires Frame(r) <= Frame(r')
    ensures r == r'
  {
    var s, t := Frame(r), Frame(r');
    ParseFrameOfFrame(r, t[|s|..]);
    ParseFrameOfFrame(r', []);
    assert t == s + t[|s|..] && t == t + [];
  }

  // A frame byte by byte: id 0..15, version 16, code 18..19 and payload size
  // 20..23 with the low byte first, then the payload.
  lemma FrameBytes(r: Request)
    requires r.Valid()
    ensures var f, n := Frame(r), |r.payload|;
            && f[..16] == r.clientId && f[16] == r.version && f[17] == r.padding
            && r.code == f[18] as nat + 0x100 * (f[19] as nat)
            && n == f[20] as nat + 0x100 * (f[21] as nat) + 0x1_0000 * (f[22] as nat) + 0x100_0000 * (f[23] as nat)
            && |f| == 24 + n && f[24..] == r.payload
  {
    hide Le16; hide Le32; hide FromLe32; hide FromLe16;
    var f := Frame(r);
    var code, size := Le16(r.code), Le32(|r.payload|);
    assert f[18..20] == code && f[20..24] == size;
    assert code == [f[18], f[19]] && size == [f[20], f[21], f[22], f[23]];
    LittleEndian16(r.code, f[18], f[19]);
    LittleEndian32(|r.payload|, f[20], f[21], f[22], f[23]);
  }

  // ---------------------------------------------------------------------
  // Responses.

  datatype Response = Response(version: byte, code: nat, payloadSize: nat, payload: bytes)

  const RESPONSE_HEADER_SIZE := 7

  // What a server sends: version, code and size in network order, payload.
  function EncodeResponse(version: byte, code: nat, payload: bytes): (s: bytes)
    requires code < 0x1_0000 && |payload| < 0x1_0000_0000
    ensures |s| == RESPONSE_HEADER_SIZE + |payload|
  {
    [version] + Be16(code) + Be32(|payload|) + payload
  }

  // The client keeps the version as a character: its value plus that of '0'.
  function VersionChar(b: byte): byte {
    (b as nat + 48) % 256
  }

  lemma HeaderOfResponse(version: byte, code: nat, payload: bytes)
    requires code < 0x1_0000 && |payload| < 0x1_0000_0000
    ensures var s := EncodeResponse(version, code, payload);
            s[0] == version && FromBe16(s[1..3]) == code && FromBe32(s[3..7]) == |payload| && s[7..] == payload
  {
    var s := EncodeResponse(version, code, payload);
    Be16RoundTrip(code);
    Be32RoundTrip(|payload|);
    assert s[1..3] == Be16(code) && s[3..7] == Be32(|payload|);
  }
}
