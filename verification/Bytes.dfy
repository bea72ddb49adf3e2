/** Bytes and the one way this code base changes them: writing over a range. */
module Bytes {
  newtype byte = x: int | 0 <= x < 256

  /** The number of values a 32-bit and a 64-bit field have. */
  const WORD := 0x1_0000_0000
  const WORD64 := WORD * WORD

  function Max(a: int, b: int): int {
    if a < b then b else a
  }

  /** `s` with `d` written over it from `p` on; it grows when `d` reaches past its end. */
  function Overwrite<T>(s: seq<T>, p: nat, d: seq<T>): (r: seq<T>)
    requires p <= |s|
    ensures |r| == Max(|s|, p + |d|)
    ensures forall i :: 0 <= i < |r| ==> r[i] == if p <= i < p + |d| then d[i - p] else s[i]
  {
    s[..p] + d + if p + |d| < |s| then s[p + |d|..] else []
  }

  /** `s`, extended with `v` up to length `n` when it is shorter than that. */
  function Grow<T>(s: seq<T>, n: nat, v: T): (r: seq<T>)
    ensures |r| == Max(|s|, n)
    ensures forall i :: 0 <= i < |r| ==> r[i] == if i < |s| then s[i] else v
  {
    if n <= |s| then s else s + Fill(n - |s|, v)
  }

  function Fill<T>(n: nat, v: T): (r: seq<T>)
    ensures |r| == n
    ensures forall i :: 0 <= i < n ==> r[i] == v
  {
    seq(n, i => v)
  }

  /** Two adjacent writes are one write of the concatenation. */
  lemma OverwriteJoin<T>(s: seq<T>, p: nat, a: seq<T>, b: seq<T>)
    requires p <= |s|
    ensures Overwrite(Overwrite(s, p, a), p + |a|, b) == Overwrite(s, p, a + b)
  {
    var l, r := Overwrite(Overwrite(s, p, a), p + |a|, b), Overwrite(s, p, a + b);
    forall i | 0 <= i < |l| ensures l[i] == r[i] {
    }
  }

  /** Little-endian 32-bit encoding of the low 32 bits of `n`, as a store on the target leaves it. */
  function LE32(n: nat): (r: seq<byte>)
    ensures |r| == 4
  {
    var a := n / 256;
    var b := a / 256;
    var c := b / 256;
    [(n % 256) as byte, (a % 256) as byte, (b % 256) as byte, (c % 256) as byte]
  }

  function Read32(s: seq<byte>): (n: nat)
    requires |s| == 4
    ensures n < WORD
  {
    s[0] as int + 256 * (s[1] as int + 256 * (s[2] as int + 256 * s[3] as int))
  }

  lemma Read32LE32(n: nat)
    ensures Read32(LE32(n)) == n % WORD
  {
    var a := n / 256;
    var b := a / 256;
    var c := b / 256;
    var r := Read32(LE32(n));
    assert n == n % 256 + 256 * a && a == a % 256 + 256 * b && b == b % 256 + 256 * c && c == c % 256 + 256 * (c / 256);
    assert r == n % 256 + 256 * (a % 256 + 256 * (b % 256 + 256 * (c % 256)));
    Residue(n, r, c / 256);
  }

  lemma Residue(n: nat, r: nat, q: nat)
    requires n == r + WORD * q && r < WORD
    ensures n % WORD == r
  {
  }

  /** The encoding loses nothing, so equal tags are equal numbers and the other way round. */
  lemma LE32Read32(s: seq<byte>)
    requires |s| == 4
    ensures LE32(Read32(s)) == s
  {
    var c := s[3] as int;
    var b := s[2] as int + 256 * c;
    var a := s[1] as int + 256 * b;
    assert Read32(s) / 256 == a && a / 256 == b && b / 256 == c;
  }

  /** The same for 64 bits. */
  function LE64(n: nat): (r: seq<byte>)
    ensures |r| == 8
  {
    LE32(n) + LE32(n / WORD)
  }

  function Read64(s: seq<byte>): (n: nat)
    requires |s| == 8
    ensures n < WORD64
  {
    Read32(s[..4]) + WORD * Read32(s[4..])
  }

  lemma Read64LE64(n: nat)
    requires n < WORD64
    ensures Read64(LE64(n)) == n
  {
    Read32LE32(n);
    Read32LE32(n / WORD);
  }
}
