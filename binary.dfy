/**
 * Powers of two and binary strings: `bin(k)[2:]`, `str.zfill`, and the value
 * `int(s, 2)` of a string of '0'/'1' characters, most significant bit first.
 */
module Binary {
  import opened Base
  import opened Builtins

  function Pow2(n: nat): (p: nat)
    ensures p >= 1
  {
    if n == 0 then 1 else 2 * Pow2(n - 1)
  }

  /** The exact base-2 logarithm of `n`, or None when `n` is not a power of two. */
  function Log2(n: nat): (r: Option<nat>)
    ensures r.Some? ==> Pow2(r.value) == n
    ensures r.None? ==> forall k: nat :: Pow2(k) != n
  {
    if n == 1 then Some(0)
    else if n == 0 || n % 2 == 1 then
      assert forall k: nat :: Pow2(k) != n by {
        forall k: nat ensures Pow2(k) != n {
          if k > 0 { assert Pow2(k) == 2 * Pow2(k - 1); }
        }
      }
      None
    else
      var h := Log2(n / 2);
      if h.Some? then Some(h.value + 1)
      else
        assert forall k: nat :: Pow2(k) != n by {
          forall k: nat ensures Pow2(k) != n {
            if k > 0 { assert Pow2(k) == 2 * Pow2(k - 1); }
          }
        }
        None
  }

  predicate IsBinary(s: string) {
    forall i :: 0 <= i < |s| ==> s[i] == '0' || s[i] == '1'
  }

  function BitOf(c: char): nat {
    if c == '1' then 1 else 0
  }

  /** `int(s, 2)`: the value of a bit string, most significant bit first. */
  function BitsValue(s: string): nat {
    if s == [] then 0 else 2 * BitsValue(s[..|s| - 1]) + BitOf(s[|s| - 1])
  }

  function Zeros(n: nat): (z: string)
    ensures |z| == n && forall i :: 0 <= i < n ==> z[i] == '0'
  {
    seq(n, _ => '0')
  }

  /** `bin(k)[2:]`: the binary digits of `k` without leading zeros ("0" for zero). */
  function Bin(k: nat): (s: string)
    ensures s != [] && IsBinary(s) && BitsValue(s) == k
    ensures s[0] == '1' || s == "0"
  {
    if k < 2 then [if k == 0 then '0' else '1']
    else
      var p := Bin(k / 2);
      var s := p + [if k % 2 == 0 then '0' else '1'];
      assert s[..|s| - 1] == p;
      s
  }

  /** `s.zfill(w)`: `s` left-padded with '0' to width `w`; never shortened. */
  function ZFill(s: string, w: nat): (r: string)
    ensures |r| == if |s| >= w then |s| else w
    ensures r == Zeros(|r| - |s|) + s
  {
    if |s| >= w then (assert Zeros(0) + s == s; s) else Zeros(w - |s|) + s
  }

  /** `bin(k)[2:].zfill(w)`: the row label written by the dense table. */
  function PaddedBin(k: nat, w: nat): (r: string)
    ensures IsBinary(r) && BitsValue(r) == k
    ensures |r| >= w && |r| >= 1
    ensures |r| == w <==> w >= 1 && k < Pow2(w)
  {
    var r := ZFill(Bin(k), w);
    ZerosValue(|r| - |Bin(k)|, Bin(k));
    BinFits(k, w);
    r
  }

  lemma {:induction false} ZerosValue(j: nat, s: string)
    ensures BitsValue(Zeros(j) + s) == BitsValue(s)
    decreases |s|
  {
    if s == [] {
      assert Zeros(j) + s == Zeros(j);
      ZerosAlone(j);
    } else {
      var n := |s|;
      assert (Zeros(j) + s)[..j + n - 1] == Zeros(j) + s[..n - 1];
      ZerosValue(j, s[..n - 1]);
    }
  }

  lemma {:induction false} ZerosAlone(j: nat)
    ensures BitsValue(Zeros(j)) == 0
  {
    if j > 0 {
      assert Zeros(j)[..j - 1] == Zeros(j - 1);
      ZerosAlone(j - 1);
    }
  }

  /** For a positive width `n`, the digits of `k` fit in `n` places exactly when `k < 2^n`. */
  lemma {:induction false} BinLength(k: nat, n: nat)
    requires n >= 1
    ensures |Bin(k)| <= n <==> k < Pow2(n)
    decreases k
  {
    if k >= 2 {
      assert |Bin(k)| == |Bin(k / 2)| + 1;
      if n == 1 {
        assert |Bin(k / 2)| >= 1;
      } else {
        BinLength(k / 2, n - 1);
        assert Pow2(n) == 2 * Pow2(n - 1);
      }
    }
  }

  lemma BinFits(k: nat, w: nat)
    ensures w >= 1 ==> (|Bin(k)| <= w <==> k < Pow2(w))
  {
    if w >= 1 { BinLength(k, w); }
  }

  /** A bit string of width `n` has a value below `2^n`. */
  lemma {:induction false} BitsValueBound(s: string)
    ensures BitsValue(s) < Pow2(|s|)
  {
    if s != [] {
      BitsValueBound(s[..|s| - 1]);
    }
  }

  /** Two bit strings of one width with one value are the same string. */
  lemma {:induction false} BitsInjective(a: string, b: string)
    requires IsBinary(a) && IsBinary(b) && |a| == |b|
    requires BitsValue(a) == BitsValue(b)
    ensures a == b
  {
    if a != [] {
      var n := |a|;
      assert BitOf(a[n - 1]) == BitOf(b[n - 1]);
      BitsInjective(a[..n - 1], b[..n - 1]);
      assert a == a[..n - 1] + [a[n - 1]];
      assert b == b[..n - 1] + [b[n - 1]];
    }
  }

  /** Every bit string of a positive width `w` is the padded binary of its own value. */
  lemma PaddedBinOfValue(x: string, w: nat)
    requires IsBinary(x) && |x| == w && w >= 1
    ensures PaddedBin(BitsValue(x), w) == x
  {
    BitsValueBound(x);
    BitsInjective(PaddedBin(BitsValue(x), w), x);
  }
}
