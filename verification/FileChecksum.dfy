// The checksum of a file.
module FileChecksum {
  import opened Bytes
  import opened Wire
  import opened Network
  import Bits
  import Checksum
  import Gf2
  import Remainder
  import Word

  // The file's characters as memcrc sees them.
  function Octets(s: bytes): (t: seq<bv8>)
    ensures |t| == |s|
  {
    seq(|s|, i requires 0 <= i < |s| => s[i] as bv8)
  }

  function FileCrc(s: bytes): nat {
    Checksum.Crc(Octets(s)) as nat
  }

  // The file's bytes, as the machine's bytes.
  predicate SameBytes(s: bytes, o: seq<bv8>) {
    |o| == |s| && forall i | 0 <= i < |s| :: o[i] as int == s[i]
  }

  // A number is the file's checksum exactly when it is that of a word whose
  // complement is the remainder of (file, length) times x^32 on division by the
  // generator.
  ghost predicate IsChecksum(o: seq<bv8>, c: bv32) {
    Gf2.IsRemainder(Remainder.PolyOf(Bits.Complement(Word.WordBits(c))),
                    Gf2.TimesPower(Remainder.PolyOf(Checksum.Message(o)), 32), Remainder.G, 32)
  }

  lemma FileCrcIsRemainder(s: bytes, o: seq<bv8>, c: bv32)
    requires SameBytes(s, o)
    ensures FileCrc(s) == c as nat <==> IsChecksum(o, c)
  {
    hide Checksum.Crc; hide Octets; hide IsChecksum;
    OctetsAre(s, o);
    CrcChecks(o, c);
    if FileCrc(s) == c as nat {
      NumberInjective(Checksum.Crc(o), c);
    }
  }

  lemma CrcChecks(o: seq<bv8>, c: bv32)
    ensures c == Checksum.Crc(o) <==> IsChecksum(o, c)
  {
    hide Checksum.Crc; hide Checksum.Message; hide Word.WordBits; hide Remainder.PolyOf; hide Gf2.IsRemainder;
    hide Gf2.TimesPower; hide Bits.Complement;
    Remainder.CrcIsRemainder(o, c);
  }

  lemma OctetsAre(s: bytes, o: seq<bv8>)
    requires SameBytes(s, o)
    ensures Octets(s) == o
  {
    forall i | 0 <= i < |s| ensures Octets(s)[i] == o[i] {
      Checksum.SameByte(o[i]);
    }
  }

  lemma NumberInjective(x: bv32, y: bv32)
    requires x as nat == y as nat
    ensures x == y
  {
    assert (x as nat) as bv32 == x && (y as nat) as bv32 == y;
  }

  // No bytes, and no length bytes: only the complement is left.
  lemma EmptyFile()
    ensures FileCrc([]) == 0xFFFF_FFFF
  {
    assert Octets([]) == [];
    EmptyCrc();
  }

  lemma EmptyCrc()
    ensures Checksum.Crc([]) == 0xFFFF_FFFF
  {
    var none: seq<bv8> := [];
    assert none + Checksum.LengthBytes(0) == none;
  }

  // memcrc counts its bytes in an int: nothing is said about longer files.
  const COUNTABLE := 0x8000_0000

  ghost predicate UsesMemcrc(env: Env) {
    forall s: bytes | |s| < COUNTABLE :: env.checksum(s) == FileCrc(s)
  }

  lemma Narrowed(r: bv32)
    ensures (Checksum.Wide(r) & 0xFFFF_FFFF) as bv32 == r
  {}

  // For bytes o of the file and a word c: the number is c's exactly when c is the
  // checksum.
  ghost predicate HasChecksum(s: bytes, crc: nat) {
    forall o: seq<bv8>, c: bv32 | SameBytes(s, o) :: crc == c as nat <==> IsChecksum(o, c)
  }

  lemma FileHasChecksum(s: bytes, word: bv32)
    requires word as nat == FileCrc(s)
    ensures HasChecksum(s, word as nat)
  {
    hide FileCrc; hide IsChecksum; hide SameBytes;
    forall o: seq<bv8>, c: bv32 | SameBytes(s, o) ensures word as nat == c as nat <==> IsChecksum(o, c) {
      FileCrcIsRemainder(s, o, c);
    }
  }

  // The vector read from the file goes through memcrc.
  method FileMemcrc(s: bytes) returns (crc: bv32)
    requires |s| < COUNTABLE
    ensures crc as nat == FileCrc(s) && HasChecksum(s, crc as nat)
  {
    var octets := Octets(s);
    var buffer := new bv8[|s|](i requires 0 <= i < |octets| => octets[i]);
    assert buffer[..|s|] == octets;
    var wide := Checksum.Memcrc(buffer, |s|);
    Narrowed(Checksum.Crc(octets));
    crc := (wide & 0xFFFF_FFFF) as bv32;
    FileHasChecksum(s, crc);
  }

  method ReadCrc(env: Env, file: Option<bytes>) returns (crc: nat)
    requires UsesMemcrc(env)
    ensures crc == Network.ReadCrc(env, file)
    ensures file.None? ==> crc == 0
    ensures file.Some? && |file.value| < COUNTABLE ==> HasChecksum(file.value, crc)
  {
    match file
    case None => crc := 0;
    case Some(s) =>
      if |s| < COUNTABLE {
        var word := FileMemcrc(s);
        crc := word as nat;
      } else {
        crc := env.checksum(s);
      }
  }
}
