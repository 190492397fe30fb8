/** Block padding of an entry's plaintext before AES-CBC encryption, in the
    style of section 6.3 of RFC 5652 (PKCS #7): every added character carries
    the number of characters added, from 1 to a whole block. */
module Padding {
  import opened Strings

  /** AES block size in characters (`BLOCK_SIZE`). */
  const BLOCK_SIZE: nat := 16

  /** `n` copies of `c`. */
  function Repeat(c: char, n: nat): (r: string)
    ensures |r| == n && forall i :: 0 <= i < n ==> r[i] == c
  {
    seq(n, _ => c)
  }

  /** `pad`: appends `BLOCK_SIZE - len(s) % BLOCK_SIZE` copies of the character
      whose code is that count. */
  function Pad(s: string): (r: string)
    ensures |r| % BLOCK_SIZE == 0
    ensures |s| < |r| <= |s| + BLOCK_SIZE
    ensures r[..|s|] == s
    ensures forall i :: |s| <= i < |r| ==> r[i] as int == |r| - |s|
  {
    var n := BLOCK_SIZE - |s| % BLOCK_SIZE;
    s + Repeat(n as char, n)
  }

  /** `unpad`, i.e. `s[0:-ord(s[-1])]`. It reads only the last character and
      does not check the others. A last character with code 0 makes the slice
      `s[0:0]`, which is empty; a code larger than the length empties it too. */
  function Unpad(s: string): (r: string)
    requires |s| > 0
    ensures |r| <= |s| && r == s[..|r|]
    ensures var k := s[|s| - 1] as int;
      |r| == if k == 0 || k >= |s| then 0 else |s| - k
  {
    s[..SliceIndex(-(s[|s| - 1] as int), |s|)]
  }

  /** Every padded string is non-empty, so `Unpad` can always be applied to it. */
  lemma UnpadPad(s: string)
    ensures |Pad(s)| > 0 && Unpad(Pad(s)) == s
  {
    var p := Pad(s);
    var n := |p| - |s|;
    assert p[|p| - 1] as int == n;
    assert Unpad(p) == p[..|s|];
  }
}
