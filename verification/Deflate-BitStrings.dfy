/** Bits and bytes of a DEFLATE stream: the packing of section 3.1.1 of RFC 1951. */
module BitStrings {

  import opened Words

  function Pow2(n: nat): (p: nat)
    ensures p > 0
  {
    if n == 0 then 1 else 2 * Pow2(n - 1)
  }

  lemma {:induction false} Pow2Monotone(a: nat, b: nat)
    requires a <= b
    ensures Pow2(a) <= Pow2(b)
  {
    if a < b {
      Pow2Monotone(a, b - 1);
    }
  }

  lemma Pow2Values()
    ensures Pow2(8) == 0x100 && Pow2(15) == 0x8000
  {
    assert Pow2(4) == 16;
    assert Pow2(8) == 256;
    assert Pow2(12) == 4096;
  }

  /** The `n` low bits of `v`, least significant first. */
  function ToBits(v: nat, n: nat): (bits: seq<bool>)
    ensures |bits| == n
  {
    if n == 0 then [] else [v % 2 == 1] + ToBits(v / 2, n - 1)
  }

  /** The number a bit string stands for, least significant bit first. */
  function FromBits(bits: seq<bool>): (v: nat)
    ensures v < Pow2(|bits|)
  {
    if bits == [] then 0 else (if bits[0] then 1 else 0) + 2 * FromBits(bits[1..])
  }

  lemma {:induction false} FromToBits(bits: seq<bool>)
    ensures ToBits(FromBits(bits), |bits|) == bits
  {
    if bits != [] {
      FromToBits(bits[1..]);
      assert FromBits(bits) / 2 == FromBits(bits[1..]);
      assert bits == [bits[0]] + bits[1..];
    }
  }

  lemma {:induction false} ToFromBits(v: nat, n: nat)
    requires v < Pow2(n)
    ensures FromBits(ToBits(v, n)) == v
  {
    if n > 0 {
      ToFromBits(v / 2, n - 1);
      assert ToBits(v, n)[1..] == ToBits(v / 2, n - 1);
    }
  }

  /** `v << n`, before any bit is lost. */
  function Shl(v: nat, n: nat): (r: nat) {
    if n == 0 then v else 2 * Shl(v, n - 1)
  }

  /** `v >> n`. */
  function Shr(v: nat, n: nat): (r: nat) {
    if n == 0 then v else Shr(v / 2, n - 1)
  }

  /** `v & ((1 << n) - 1)`. */
  function Low(v: nat, n: nat): (r: nat)
    ensures r < Pow2(n)
  {
    if n == 0 then 0 else v % 2 + 2 * Low(v / 2, n - 1)
  }

  /** New bits go above the ones held: nothing overlaps and nothing is lost. */
  lemma {:induction false} ToBitsConcat(low: nat, a: nat, high: nat, b: nat)
    requires low < Pow2(a)
    ensures ToBits(low + Shl(high, a), a + b) == ToBits(low, a) + ToBits(high, b)
    ensures high < Pow2(b) ==> low + Shl(high, a) < Pow2(a + b)
  {
    if a > 0 {
      ToBitsConcat(low / 2, a - 1, high, b);
      var v := low + Shl(high, a);
      assert v % 2 == low % 2 && v / 2 == low / 2 + Shl(high, a - 1);
    }
  }

  /** Only the low `n` bits of the value matter. */
  lemma {:induction false} ToBitsLow(v: nat, n: nat)
    ensures ToBits(Low(v, n), n) == ToBits(v, n)
  {
    if n > 0 {
      ToBitsLow(v / 2, n - 1);
      assert Low(v, n) / 2 == Low(v / 2, n - 1);
    }
  }

  /** Taking the low `n` bits off leaves the rest. */
  lemma {:induction false} ToBitsSplit(v: nat, n: nat, m: nat)
    ensures ToBits(v, n + m) == ToBits(Low(v, n), n) + ToBits(Shr(v, n), m)
    ensures v < Pow2(n + m) ==> Shr(v, n) < Pow2(m)
  {
    if n > 0 {
      ToBitsSplit(v / 2, n - 1, m);
      assert Low(v, n) / 2 == Low(v / 2, n - 1);
    }
  }

  /** The bits of a byte string: each byte from its least significant bit. */
  function BytesBits(s: seq<Byte>): (bits: seq<bool>)
    ensures |bits| == 8 * |s|
  {
    if s == [] then [] else ToBits(s[0], 8) + BytesBits(s[1..])
  }

  lemma {:induction false} BytesBitsConcat(x: seq<Byte>, y: seq<Byte>)
    ensures BytesBits(x + y) == BytesBits(x) + BytesBits(y)
  {
    if x == [] {
      assert x + y == y;
    } else {
      assert (x + y)[1..] == x[1..] + y;
      BytesBitsConcat(x[1..], y);
    }
  }

  lemma BytesBitsAppend(s: seq<Byte>, b: Byte)
    ensures BytesBits(s + [b]) == BytesBits(s) + ToBits(b, 8)
  {
    BytesBitsConcat(s, [b]);
    assert BytesBits([b]) == ToBits(b, 8);
  }

  lemma BytesBitsSlice(s: seq<Byte>, i: nat, j: nat)
    requires i <= j <= |s|
    ensures BytesBits(s)[8 * i..8 * j] == BytesBits(s[i..j])
  {
    assert s == s[..i] + s[i..j] + s[j..];
    BytesBitsConcat(s[..i] + s[i..j], s[j..]);
    BytesBitsConcat(s[..i], s[i..j]);
  }

  lemma BytesBitsAt(s: seq<Byte>, i: nat)
    requires i < |s|
    ensures BytesBits(s)[8 * i..8 * i + 8] == ToBits(s[i], 8)
  {
    BytesBitsSlice(s, i, i + 1);
    assert s[i..i + 1] == [s[i]];
  }

  /** A byte string is determined by its bits. */
  lemma {:induction false} BytesBitsInjective(x: seq<Byte>, y: seq<Byte>)
    requires BytesBits(x) == BytesBits(y)
    ensures x == y
  {
    assert |x| == |y|;
    if x != [] {
      BytesBitsAt(x, 0);
      BytesBitsAt(y, 0);
      assert Pow2(8) == 256;
      ToFromBits(x[0], 8);
      ToFromBits(y[0], 8);
      BytesBitsSlice(x, 1, |x|);
      BytesBitsSlice(y, 1, |y|);
      assert x[1..|x|] == x[1..] && y[1..|y|] == y[1..];
      BytesBitsInjective(x[1..], y[1..]);
    }
  }
}
