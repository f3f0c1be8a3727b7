// The client's files. me.info: three lines, the second one the client id in
// hexadecimal. transfer.info: address, client name, path of the file to send.
module FileHandler {
  import opened Bytes
  import opened Wire
  import opened Hex

  datatype MeInfo = MeInfo(name: bytes, uuid: bytes, base64Key: bytes)

  datatype TransferInfo = TransferInfo(ipAddress: bytes, port: int, name: bytes, filePath: bytes)

  function Without(s: bytes, b: byte): (t: bytes)
    ensures b !in t
    decreases |s|
  {
    if s == [] then []
    else
      var t := Without(s[..|s| - 1], b);
      if s[|s| - 1] == b then t else t + [s[|s| - 1]]
  }

  // Only the b's go; everything else stays, in order.

  lemma {:induction false} WithoutConcat(x: bytes, y: bytes, b: byte)
    ensures Without(x + y, b) == Without(x, b) + Without(y, b)
    decreases |y|
  {
    if y == [] {
      assert x + y == x;
    } else {
      var n := |y| - 1;
      assert (x + y)[..|x + y| - 1] == x + y[..n];
      WithoutConcat(x, y[..n], b);
    }
  }

  lemma {:induction false} WithoutNone(x: bytes, b: byte)
    requires b !in x
    ensures Without(x, b) == x
    decreases |x|
  {
    if x == [] {
    } else {
      var n := |x| - 1;
      assert x[n] in x;
      WithoutNone(x[..n], b);
      assert x == x[..n] + [x[n]];
    }
  }

  // Lines with newlines between them, and without.

  function Joined(lines: seq<bytes>): bytes {
    if lines == [] then [] else if |lines| == 1 then lines[0] else lines[0] + [NEWLINE] + Joined(lines[1..])
  }

  function Concat(lines: seq<bytes>): bytes {
    if lines == [] then [] else lines[0] + Concat(lines[1..])
  }

  predicate NewlineFree(lines: seq<bytes>) {
    forall i | 0 <= i < |lines| :: NEWLINE !in lines[i]
  }

  lemma {:induction false} JoinedWithout(lines: seq<bytes>)
    requires NewlineFree(lines)
    ensures Without(Joined(lines), NEWLINE) == Concat(lines)
    decreases |lines|
  {
    hide Without;
    if lines == [] {
      WithoutNone([], NEWLINE);
    } else {
      WithoutNone(lines[0], NEWLINE);
      JoinedWithout(lines[1..]);
      if |lines| == 1 {
        assert lines[0] + [] == lines[0];
      } else {
        var rest := Joined(lines[1..]);
        WithoutConcat(lines[0] + [NEWLINE], rest, NEWLINE);
        WithoutConcat(lines[0], [NEWLINE], NEWLINE);
        OnlyNewline();
        assert lines[0] + [] == lines[0];
      }
    }
  }

  // Every text is such lines.
  lemma {:induction false} LinesOf(text: bytes) returns (lines: seq<bytes>)
    ensures lines != [] && NewlineFree(lines) && text == Joined(lines)
    decreases |text|
  {
    var (line, rest) := GetLine(text);
    GetLineExact(text);
    if NEWLINE in text {
      var others := LinesOf(rest);
      lines := [line] + others;
      assert lines[1..] == others;
    } else {
      lines := [line];
    }
  }

  // A line: the text up to the first newline, and what follows that newline.
  predicate IsLine(text: bytes, line: bytes, rest: bytes) {
    NEWLINE !in line && (text == line + [NEWLINE] + rest || (text == line && rest == []))
  }

  lemma {:induction false} GetLineExact(s: bytes)
    ensures IsLine(s, GetLine(s).0, GetLine(s).1)
    ensures NEWLINE in s ==> s == GetLine(s).0 + [NEWLINE] + GetLine(s).1
    ensures NEWLINE !in s ==> GetLine(s) == (s, [])
    decreases |s|
  {
    if s == [] {
    } else if s[0] == NEWLINE {
      assert s == [] + [NEWLINE] + s[1..];
    } else {
      GetLineExact(s[1..]);
      var r := GetLine(s[1..]);
      assert s == [s[0]] + s[1..];
      assert [s[0]] + (r.0 + [NEWLINE] + r.1) == ([s[0]] + r.0) + [NEWLINE] + r.1;
    }
  }

  lemma LineFound(text: bytes, line: bytes, rest: bytes)
    requires IsLine(text, line, rest)
    ensures GetLine(text) == (line, rest)
  {
    if text == line && rest == [] {
      LastLineOf(line);
    } else {
      LineOf(line, rest);
    }
  }

  // For every text of three lines, missing ones being empty, the fields are what
  // the lines say. What follows the third line is ignored.
  lemma MeInfoLines(text: bytes, name: bytes, afterName: bytes, uuid: bytes, afterUuid: bytes, key: bytes,
                    afterKey: bytes)
    requires IsLine(text, name, afterName) && IsLine(afterName, uuid, afterUuid) && IsLine(afterUuid, key, afterKey)
    ensures ParseMeInfo(text) == MeInfo(name, uuid, key)
  {
    hide GetLine; hide IsLine;
    LineFound(text, name, afterName);
    LineFound(afterName, uuid, afterUuid);
    LineFound(afterUuid, key, afterKey);
  }

  lemma OnlyNewline()
    ensures Without([NEWLINE], NEWLINE) == []
  {
    assert [NEWLINE][..0] == [];
  }

  // What saveMeInfo writes, keyText being the Base64 text of the private key.
  function MeInfoText(name: bytes, id: bytes, keyText: bytes): bytes {
    name + [NEWLINE] + HexOf(id) + [NEWLINE] + Without(keyText, NEWLINE)
  }

  // std::getline: the characters before the first newline, and what follows it.
  function GetLine(s: bytes): (r: (bytes, bytes))
    ensures NEWLINE !in r.0
    ensures |r.0| + |r.1| <= |s|
  {
    if s == [] then ([], [])
    else if s[0] == NEWLINE then ([], s[1..])
    else
      var r := GetLine(s[1..]);
      ([s[0]] + r.0, r.1)
  }

  function ParseMeInfo(s: bytes): MeInfo {
    var first := GetLine(s);
    var second := GetLine(first.1);
    var third := GetLine(second.1);
    MeInfo(first.0, second.0, third.0)
  }

  lemma {:induction false} LineOf(line: bytes, rest: bytes)
    requires NEWLINE !in line
    ensures GetLine(line + [NEWLINE] + rest) == (line, rest)
    decreases |line|
  {
    var s := line + [NEWLINE] + rest;
    if line == [] {
      assert s[1..] == rest;
    } else {
      assert line[0] in line;
      assert s[1..] == line[1..] + [NEWLINE] + rest;
      LineOf(line[1..], rest);
      assert line == [line[0]] + line[1..];
    }
  }

  lemma {:induction false} LastLineOf(line: bytes)
    requires NEWLINE !in line
    ensures GetLine(line) == (line, [])
    decreases |line|
  {
    if line == [] {
    } else {
      assert line[0] in line;
      LastLineOf(line[1..]);
      assert line == [line[0]] + line[1..];
    }
  }

  // Reading back what was saved: the same name exactly when it has no newline;
  // then also the id, as 32 hexadecimal digits that decode to it, and the lines
  // of the key text one after the other, and the file holds nothing else.
  lemma MeInfoRoundTrip(name: bytes, id: bytes, keyText: bytes)
    ensures var text := MeInfoText(name, id, keyText);
            var info := ParseMeInfo(text);
            && (info.name == name <==> NEWLINE !in name)
            && (NEWLINE !in name ==>
                  text == info.name + [NEWLINE] + info.uuid + [NEWLINE] + info.base64Key
                  && Unhex(info.uuid) == Some(id) && |info.uuid| == 2 * |id|
                  && forall lines: seq<bytes> | NewlineFree(lines) && keyText == Joined(lines) ::
                       info.base64Key == Concat(lines))
  {
    var text := MeInfoText(name, id, keyText);
    if NEWLINE !in name {
      var afterName := HexOf(id) + [NEWLINE] + Without(keyText, NEWLINE);
      assert text == name + [NEWLINE] + afterName;
      LineOf(name, afterName);
      HexIsText(id);
      HexRoundTrip(id);
      LineOf(HexOf(id), Without(keyText, NEWLINE));
      LastLineOf(Without(keyText, NEWLINE));
      forall lines: seq<bytes> | NewlineFree(lines) && keyText == Joined(lines)
        ensures Without(keyText, NEWLINE) == Concat(lines)
      {
        JoinedWithout(lines);
      }
    }
  }

  // A file stream being written.
  class OutputFile {
    var contents: bytes

    constructor ()
      ensures contents == []
    {
      contents := [];
    }

    method Put(s: bytes)
      modifies this
      ensures contents == old(contents) + s
    {
      contents := contents + s;
    }
  }

  // std::remove followed by erase: closes the gaps in place and returns how
  // much is left.
  method RemoveAll(a: array<byte>, b: byte) returns (n: nat)
    modifies a
    ensures n <= a.Length
    ensures a[..n] == Without(old(a[..]), b)
  {
    n := 0;
    for i := 0 to a.Length
      invariant n <= i
      invariant a[..n] == Without(old(a[..])[..i], b)
      invariant forall k | i <= k < a.Length :: a[k] == old(a[k])
    {
      assert old(a[..])[..i + 1][..i] == old(a[..])[..i];
      if a[i] != b {
        a[n] := a[i];
        n := n + 1;
      }
    }
    assert old(a[..])[..a.Length] == old(a[..]);
  }

  method SaveMeInfo(file: OutputFile, clientName: bytes, clientId: array<byte>, base64PrivateKey: bytes)
    requires clientId.Length == 16
    modifies file
    ensures file.contents == old(file.contents) + MeInfoText(clientName, clientId[..], base64PrivateKey)
  {
    hide HexOf; hide FormatHex; hide LowByte; hide SignedChar; hide Without;
    file.Put(clientName + [NEWLINE]);
    HexOfNothing();
    for i := 0 to 16
      invariant file.contents == old(file.contents) + (clientName + [NEWLINE] + HexOf(clientId[..i]))
    {
      SignedCharLowByte(clientId[i]);
      assert clientId[..i + 1] == clientId[..i] + [clientId[i]];
      HexOfMore(clientId[..i], clientId[i]);
      file.Put(FormatHex(LowByte(SignedChar(clientId[i]))));
    }
    assert clientId[..16] == clientId[..];
    file.Put([NEWLINE]);
    var key := new byte[|base64PrivateKey|](i requires 0 <= i < |base64PrivateKey| => base64PrivateKey[i]);
    assert key[..] == base64PrivateKey;
    var n := RemoveAll(key, NEWLINE);
    file.Put(key[..n]);
  }

  const COLON: byte := 58

  // What reading transfer.info leads to: the information, a runtime error (no
  // file, a name of more than 254 characters, an address without a colon), or
  // the error of a port that is not a number.
  datatype TransferRead = Good(info: TransferInfo) | BadFile | BadPort

  // stoi: the number a text begins with, or None where it throws.
  function TransferInfoOf(file: Option<bytes>, stoi: bytes -> Option<int>): (r: TransferRead)
    ensures r.Good? ==> |r.info.name| <= 254 && NEWLINE !in r.info.name
  {
    match file
    case None => BadFile
    case Some(text) =>
      var first := GetLine(text);
      var second := GetLine(first.1);
      var third := GetLine(second.1);
      var pos := Find(first.0, COLON);
      if |second.0| > 254 || pos == |first.0| then BadFile
      else
        match stoi(first.0[pos + 1..])
        case None => BadPort
        case Some(port) => Good(TransferInfo(first.0[..pos], port, second.0, third.0))
  }

  // The position of the first b in s, or |s|.
  function Find(s: bytes, b: byte): (i: nat)
    ensures i <= |s| && b !in s[..i]
    ensures i < |s| ==> s[i] == b
  {
    if s == [] || s[0] == b then 0
    else
      var i := Find(s[1..], b) + 1;
      assert s[..i] == [s[0]] + s[1..][..i - 1];
      i
  }

  // For every text of three lines, missing ones being empty: a name of more than
  // 254 characters or an address without a colon is an error, else a port that
  // is no number, else the fields are what the lines say. What follows the
  // third line is ignored.
  lemma TransferInfoParts(text: bytes, stoi: bytes -> Option<int>, address: bytes, afterAddress: bytes,
                          name: bytes, afterName: bytes, path: bytes, afterPath: bytes)
    requires IsLine(text, address, afterAddress)
    requires IsLine(afterAddress, name, afterName)
    requires IsLine(afterName, path, afterPath)
    ensures TransferInfoOf(None, stoi) == BadFile
    ensures |name| > 254 || COLON !in address ==> TransferInfoOf(Some(text), stoi) == BadFile
    ensures forall ip: bytes, port: bytes | address == ip + [COLON] + port && COLON !in ip && |name| <= 254 ::
              TransferInfoOf(Some(text), stoi)
              == if stoi(port).None? then BadPort else Good(TransferInfo(ip, stoi(port).value, name, path))
  {
    hide GetLine; hide Find; hide IsLine;
    LineFound(text, address, afterAddress);
    LineFound(afterAddress, name, afterName);
    LineFound(afterName, path, afterPath);
    if COLON in address {
      FindIn(address, COLON);
    }
    forall ip: bytes, port: bytes | address == ip + [COLON] + port && COLON !in ip && |name| <= 254
      ensures TransferInfoOf(Some(text), stoi)
           == if stoi(port).None? then BadPort else Good(TransferInfo(ip, stoi(port).value, name, path))
    {
      FindAt(ip, port, COLON);
      assert address[..|ip|] == ip && address[|ip| + 1..] == port;
    }
  }

  lemma {:induction false} FindIn(s: bytes, b: byte)
    ensures Find(s, b) < |s| <==> b in s
    decreases |s|
  {
    if s == [] {
    } else {
      FindIn(s[1..], b);
      assert s == [s[0]] + s[1..];
    }
  }

  lemma {:induction false} FindAt(s: bytes, t: bytes, b: byte)
    requires b !in s
    ensures Find(s + [b] + t, b) == |s|
    decreases |s|
  {
    if s == [] {
      assert ([b] + t)[0] == b;
    } else {
      assert s[0] in s;
      assert (s + [b] + t)[1..] == s[1..] + [b] + t;
      FindAt(s[1..], t, b);
    }
  }

  // A file stream being read.
  class InputFile {
    var rest: bytes

    constructor (contents: bytes)
      ensures rest == contents
    {
      rest := contents;
    }

    // std::getline
    method ReadLine() returns (line: bytes)
      modifies this
      ensures (line, rest) == GetLine(old(rest))
    {
      var i := 0;
      assert rest[0..] == rest && [] + GetLine(rest).0 == GetLine(rest).0;
      while i < |rest| && rest[i] != NEWLINE
        invariant i <= |rest| && rest == old(rest)
        invariant GetLine(rest) == (rest[..i] + GetLine(rest[i..]).0, GetLine(rest[i..]).1)
      {
        LineStep(rest, i);
        i := i + 1;
      }
      line := rest[..i];
      assert rest[..i] + [] == rest[..i];
      rest := if i < |rest| then rest[i + 1..] else [];
    }
  }

  lemma LineStep(s: bytes, i: nat)
    requires i < |s| && s[i] != NEWLINE
    ensures s[..i] + GetLine(s[i..]).0 == s[..i + 1] + GetLine(s[i + 1..]).0
    ensures GetLine(s[i..]).1 == GetLine(s[i + 1..]).1
  {
    assert s[i..][1..] == s[i + 1..];
    assert s[..i + 1] == s[..i] + [s[i]];
  }

  // None: the file cannot be opened.
  method ReadMeInfo(contents: Option<bytes>) returns (r: Option<MeInfo>)
    ensures r == match contents case None => None case Some(s) => Some(ParseMeInfo(s))
  {
    if contents.None? {
      return None;
    }
    var file := new InputFile(contents.value);
    var name := file.ReadLine();
    var uuid := file.ReadLine();
    var base64Key := file.ReadLine();
    r := Some(MeInfo(name, uuid, base64Key));
  }

  method ReadTransferInfo(contents: Option<bytes>, stoi: bytes -> Option<int>) returns (r: TransferRead)
    ensures r == TransferInfoOf(contents, stoi)
  {
    if contents.None? {
      return BadFile;
    }
    var file := new InputFile(contents.value);
    var address := file.ReadLine();
    var name := file.ReadLine();
    var path := file.ReadLine();
    if |name| > 254 {
      return BadFile;
    }
    var pos := Find(address, COLON);
    if pos == |address| {
      return BadFile;
    }
    var port := stoi(address[pos + 1..]);
    if port.None? {
      return BadPort;
    }
    r := Good(TransferInfo(address[..pos], port.value, name, path));
  }
}
