// The block cipher of framework/encryptor/encryptor.cpp: one constant key byte
// XORed over the buffer, the same loop for encryption and decryption.
module Cipher {

  type Byte = bv8
  type Data = seq<Byte>

  const BLOCK_SIZE: nat := 4096
  const KEY: Byte := 0x4B // 'K'

  // What one pass of the loop makes of a whole buffer.
  function Xor(s: Data): (r: Data)
    ensures |r| == |s|
  {
    seq(|s|, i requires 0 <= i < |s| => s[i] ^ KEY)
  }

  // Decryption is a second encryption, for every buffer.
  lemma XorTwice(s: Data)
    ensures Xor(Xor(s)) == s
  {
    forall i | 0 <= i < |s| ensures Xor(Xor(s))[i] == s[i] {
      KeyTwice(s[i]);
    }
  }

  lemma KeyTwice(b: Byte)
    ensures (b ^ KEY) ^ KEY == b
  {
  }

  // Encryption leaves no byte as it was.
  lemma NoByteInClear(s: Data)
    ensures forall i :: 0 <= i < |s| ==> Xor(s)[i] != s[i]
  {
    forall i | 0 <= i < |s| ensures Xor(s)[i] != s[i] {
      KeyChanges(s[i]);
    }
  }

  lemma KeyChanges(b: Byte)
    ensures b ^ KEY != b
  {
  }

  // The byte of a given value.
  function ToByte(n: nat): (b: Byte)
    requires n < 256
    ensures b as nat == n
  {
    if n == 0 then 0
    else
      var b := ToByte(n - 1);
      NextByte(b);
      b + 1
  }

  lemma NextByte(b: Byte)
    requires b as nat < 255
    ensures (b + 1) as nat == b as nat + 1
  {
  }

  lemma SameByte(a: Byte, b: Byte)
    requires a as nat == b as nat
    ensures a == b
  {
  }

  // Encryptor::EncryptDecryptIMP: the in-place loop over the caller's buffer.
  method EncryptDecrypt(buff: array<Byte>, len: nat)
    requires len <= buff.Length
    modifies buff
    ensures buff[..] == Xor(old(buff[..len])) + old(buff[len..])
    ensures forall k :: 0 <= k < len ==> buff[k] == old(buff[k]) ^ 0x4B && buff[k] != old(buff[k])
  {
    for i := 0 to len
      invariant forall k :: 0 <= k < i ==> buff[k] == old(buff[k]) ^ KEY
      invariant forall k :: i <= k < buff.Length ==> buff[k] == old(buff[k])
    {
      buff[i] := buff[i] ^ KEY;
    }
    forall k | 0 <= k < len ensures buff[k] != old(buff[k]) {
      KeyChanges(old(buff[k]));
    }
  }
}
