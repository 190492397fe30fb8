/** The cryptographic and encoding library calls the store makes (PyCrypto's
    RSA, PKCS1_OAEP, AES and SHA256, and Python's base64), as a bundle of total
    functions. Their inverse laws are not assumed anywhere: they are the
    predicate `Sound`, which the end-to-end lemmas take as a precondition. */
module Crypto {
  import opened Wrappers
  import opened Padding

  /** An RSA key. `secret` is None for a public key. */
  datatype RsaKey = RsaKey(modulus: nat, exponent: nat, secret: Option<nat>)
  {
    predicate IsPrivate() { secret.Some? }
  }

  /** `rsakey.publickey()`. */
  function PublicPart(k: RsaKey): (p: RsaKey)
    ensures !p.IsPrivate() && p.modulus == k.modulus && p.exponent == k.exponent
  {
    k.(secret := None)
  }

  /** `AES_BITS`; the AES key is `AES_BITS / 8` random bytes. */
  const AES_BITS: nat := 128
  const AES_KEY_BYTES: nat := AES_BITS / 8

  /** The library calls, each total: a call that raises in the source returns None. */
  datatype Suite = Suite(
    /** `SHA256.new(); h.update(x); h.hexdigest()` */
    sha256Hex: string -> string,
    /** `base64.b64encode` */
    b64Encode: string -> string,
    /** `base64.b64decode` of text already stripped of non-alphabet characters;
        None for incorrect padding */
    b64Decode: string -> Option<string>,
    /** `rsakey.exportKey(passphrase=pwd)` */
    exportPrivate: (RsaKey, string) -> string,
    /** `RSA.importKey(text, passphrase=pwd)`; None for a wrong passphrase */
    importPrivate: (string, string) -> Option<RsaKey>,
    /** `key.exportKey()` */
    exportPublic: RsaKey -> string,
    /** `RSA.importKey(text)` */
    importPublic: string -> Option<RsaKey>,
    /** `PKCS1_OAEP.new(key).encrypt` */
    oaepEncrypt: (RsaKey, string) -> string,
    /** `PKCS1_OAEP.new(key).decrypt`; None when decryption fails */
    oaepDecrypt: (RsaKey, string) -> Option<string>,
    /** `AES.new(key, AES.MODE_CBC, iv).encrypt` */
    cbcEncrypt: (string, string, string) -> string,
    /** `AES.new(key, AES.MODE_CBC, iv).decrypt`; None for a bad key, IV or length */
    cbcDecrypt: (string, string, string) -> Option<string>)

  /** Characters of the base64 alphabet of section 4 of RFC 4648, with `=`. */
  predicate IsBase64Char(c: char)
  {
    ('A' <= c <= 'Z') || ('a' <= c <= 'z') || ('0' <= c <= '9') || c == '+' || c == '/' || c == '='
  }

  predicate IsBase64(s: string)
  {
    forall i :: 0 <= i < |s| ==> IsBase64Char(s[i])
  }

  /** The laws the library calls obey: decoding inverts encoding, decryption
      inverts encryption under the matching key, importing inverts exporting,
      base64 output stays in its alphabet and a SHA-256 hex digest is 64 characters. */
  ghost predicate Sound(s: Suite)
  {
    && (forall x :: |s.sha256Hex(x)| == 64)
    && (forall x :: IsBase64(s.b64Encode(x)))
    && (forall x :: s.b64Decode(s.b64Encode(x)) == Some(x))
    && (forall k, pwd :: s.importPrivate(s.exportPrivate(k, pwd), pwd) == Some(k))
    && (forall k :: s.importPublic(s.exportPublic(k)) == Some(k))
    && (forall k: RsaKey, x :: k.IsPrivate() ==> s.oaepDecrypt(k, s.oaepEncrypt(PublicPart(k), x)) == Some(x))
    && (forall key, iv, x :: |key| == AES_KEY_BYTES && |iv| == BLOCK_SIZE && |x| % BLOCK_SIZE == 0 ==>
          s.cbcDecrypt(key, iv, s.cbcEncrypt(key, iv, x)) == Some(x))
  }

  /** `shash(inp)`: the SHA-256 hex digest of `inp`, cut to its first 16 characters. */
  function SHash(s: Suite, inp: string): (r: string)
    ensures Sound(s) ==> |r| == 16
  {
    var h := s.sha256Hex(inp);
    h[..if |h| < 16 then |h| else 16]
  }

  /** The characters of `s` that are in the base64 alphabet, in order. */
  function Base64Filter(s: string): (r: string)
    ensures IsBase64(r) && |r| <= |s|
    ensures IsBase64(s) ==> r == s
  {
    if s == [] then []
    else if IsBase64Char(s[0]) then [s[0]] + Base64Filter(s[1..])
    else Base64Filter(s[1..])
  }

  /** `base64.b64decode` as Python 2 runs it: characters outside the alphabet
      (the newline a line ends with, say) are discarded before decoding. */
  function B64Decode(s: Suite, text: string): (r: Option<string>)
    ensures IsBase64(text) ==> r == s.b64Decode(text)
  {
    s.b64Decode(Base64Filter(text))
  }

  /** Encoded text followed by characters outside the alphabet still decodes
      to what was encoded. */
  lemma {:induction false} B64DecodeIgnoresTrailer(s: Suite, x: string, trailer: string)
    requires Sound(s)
    requires forall i :: 0 <= i < |trailer| ==> !IsBase64Char(trailer[i])
    ensures B64Decode(s, s.b64Encode(x) + trailer) == Some(x)
  {
    FilterAppend(s.b64Encode(x), trailer);
    FilterDropsAll(trailer);
    assert s.b64Encode(x) + [] == s.b64Encode(x);
  }

  lemma {:induction false} FilterAppend(a: string, b: string)
    ensures Base64Filter(a + b) == Base64Filter(a) + Base64Filter(b)
    decreases |a|
  {
    if a == [] {
      assert a + b == b;
    } else {
      assert (a + b)[0] == a[0] && (a + b)[1..] == a[1..] + b;
      FilterAppend(a[1..], b);
    }
  }

  lemma {:induction false} FilterDropsAll(t: string)
    requires forall i :: 0 <= i < |t| ==> !IsBase64Char(t[i])
    ensures Base64Filter(t) == []
    decreases |t|
  {
    if t != [] {
      FilterDropsAll(t[1..]);
    }
  }
}
