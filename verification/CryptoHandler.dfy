// Encrypting the file.
module CryptoHandler {
  import opened Bytes
  import opened Wire
  import opened Network
  import Hex

  // The cipher text in hexadecimal; None for a key that is not sixteen bytes.
  method EncryptWithAes(env: Env, plaintext: bytes, aesKey: bytes, moment: nat) returns (r: Option<bytes>)
    ensures r == if |aesKey| == 16 then Some(Hex.HexOf(env.aesEncrypt(plaintext, aesKey, moment))) else None
  {
    if |aesKey| != 16 {
      return None;
    }
    var encrypted := env.aesEncrypt(plaintext, aesKey, moment);
    var oss: bytes := [];
    for i := 0 to |encrypted|
      invariant oss == Hex.HexOf(encrypted[..i])
    {
      assert encrypted[..i + 1][..i] == encrypted[..i];
      oss := oss + Hex.FormatHex(encrypted[i]);
    }
    assert encrypted[..|encrypted|] == encrypted;
    r := Some(oss);
  }
}
