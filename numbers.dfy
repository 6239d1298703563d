/** Unsigned numbers as little-endian byte strings, decimal numerals and
    truthiness (src/interp.rs:91-106, 220-247, 262-268). `BigUint` is
    replaced by `nat`; `from_bytes_le` by Decode and `to_bytes_le` by Encode. */
module Numbers {

  import opened Values

  /** The magnitude of a little-endian byte string; the empty string is zero. */
  function Decode(w: seq<byte>): nat
  {
    if w == [] then 0 else w[0] as nat + 256 * Decode(w[1..])
  }

  /** The shortest little-endian encoding of `n`; zero is the single byte 0. */
  function Encode(n: nat): (w: seq<byte>)
    ensures |w| >= 1
    decreases n
  {
    if n < 256 then [n as byte] else [(n % 256) as byte] + Encode(n / 256)
  }

  /** `k` zero bytes. */
  function Zeros(k: nat): (z: seq<byte>)
    ensures |z| == k && forall i :: 0 <= i < k ==> z[i] == 0
  {
    seq(k, _ => 0)
  }

  /** An encoding without redundant trailing zero bytes (zero itself is [0]). */
  predicate Canonical(w: seq<byte>)
  {
    w == [0] || (w != [] && w[|w| - 1] != 0)
  }

  lemma {:induction false} DecodeOfEncode(n: nat)
    ensures Decode(Encode(n)) == n
    decreases n
  {
    if n >= 256 {
      var q, r := n / 256, n % 256;
      var w := Encode(n);
      assert w[0] as nat == r;
      assert w[1..] == Encode(q);
      DecodeOfEncode(q);
      calc {
        Decode(w);
        w[0] as nat + 256 * Decode(w[1..]);
        r + 256 * q;
        n;
      }
    }
  }

  lemma {:induction false} EncodeIsCanonical(n: nat)
    ensures Canonical(Encode(n))
    ensures n == 0 <==> Encode(n) == [0]
    decreases n
  {
    if n >= 256 {
      EncodeIsCanonical(n / 256);
      var t := Encode(n / 256);
      assert Encode(n)[|Encode(n)| - 1] == t[|t| - 1];
    }
  }

  /** A string whose last byte is nonzero encodes a positive number. */
  lemma {:induction false} DecodePositive(w: seq<byte>)
    requires w != [] && w[|w| - 1] != 0
    ensures Decode(w) > 0
    decreases |w|
  {
    if |w| > 1 {
      DecodePositive(w[1..]);
    }
  }

  /** Encoding is the inverse of decoding on canonical strings. */
  lemma {:induction false} EncodeOfDecode(w: seq<byte>)
    requires Canonical(w)
    ensures Encode(Decode(w)) == w
    decreases |w|
  {
    if |w| == 1 {
      assert Decode(w[1..]) == 0;
    } else {
      var t := w[1..];
      assert t != [] && t[|t| - 1] == w[|w| - 1] != 0;
      DecodePositive(t);
      EncodeOfDecode(t);
      var n := Decode(w);
      assert n == w[0] as nat + 256 * Decode(t);
      assert n % 256 == w[0] as nat && n / 256 == Decode(t);
      assert w == [w[0]] + t;
    }
  }

  /** Trailing zero bytes do not change the magnitude (little-endian). */
  lemma {:induction false} DecodeIgnoresTrailingZeros(w: seq<byte>, k: nat)
    ensures Decode(w + Zeros(k)) == Decode(w)
    decreases |w| + k
  {
    if w == [] {
      if k > 0 {
        assert Zeros(k)[1..] == Zeros(k - 1);
        DecodeIgnoresTrailingZeros([], k - 1);
        assert [] + Zeros(k) == Zeros(k);
        assert [] + Zeros(k - 1) == Zeros(k - 1);
      }
    } else {
      assert (w + Zeros(k))[1..] == w[1..] + Zeros(k);
      DecodeIgnoresTrailingZeros(w[1..], k);
    }
  }

  /** 256 raised to the power `k`. */
  function Pow256(k: nat): (p: nat)
    ensures p >= 1
  {
    if k == 0 then 1 else 256 * Pow256(k - 1)
  }

  /** A byte string `w` decodes below 256^|w|: the width bounds the value. */
  lemma {:induction false} DecodeBound(w: seq<byte>)
    ensures Decode(w) < Pow256(|w|)
    decreases |w|
  {
    if w != [] {
      DecodeBound(w[1..]);
    }
  }

  // ---------------------------------------------------------------------
  // Decimal numerals (`.u` parses them, `.u-print` prints them)

  predicate IsDigit(b: byte)
  {
    0x30 <= b <= 0x39
  }

  predicate AllDigits(w: seq<byte>)
  {
    forall i :: 0 <= i < |w| ==> IsDigit(w[i])
  }

  /** The value of a string of decimal digits, most significant first. */
  function DigitsValue(w: seq<byte>): nat
    requires AllDigits(w)
  {
    if w == [] then 0 else 10 * DigitsValue(w[..|w| - 1]) + (w[|w| - 1] - 0x30) as nat
  }

  /** `.u`'s numeral parser: fails on the empty string and on any non-digit. */
  function ParseDecimal(w: seq<byte>): Option<nat>
  {
    if w != [] && AllDigits(w) then Some(DigitsValue(w)) else None
  }

  /** The decimal rendering of `n` without leading zeros, as `.u-print` prints it. */
  function ShowDecimal(n: nat): (w: seq<byte>)
    ensures w != [] && AllDigits(w)
    ensures (w[0] == 0x30) <==> n == 0
    decreases n
  {
    if n < 10 then [(0x30 + n) as byte] else ShowDecimal(n / 10) + [(0x30 + n % 10) as byte]
  }

  lemma {:induction false} ParseOfShow(n: nat)
    ensures ParseDecimal(ShowDecimal(n)) == Some(n)
    decreases n
  {
    var w := ShowDecimal(n);
    if n < 10 {
      assert w[..0] == [];
      assert DigitsValue(w) == (w[0] - 0x30) as nat == n;
    } else {
      var q, r := n / 10, n % 10;
      ParseOfShow(q);
      assert w[..|w| - 1] == ShowDecimal(q);
      assert (w[|w| - 1] - 0x30) as nat == r;
      assert DigitsValue(w) == 10 * q + r;
    }
  }

  /** A numeral accepted by `.u` and printed back differs only by leading zeros;
      without them it comes back unchanged. */
  lemma {:induction false} ShowOfParse(w: seq<byte>)
    requires w != [] && AllDigits(w) && (w[0] == 0x30 ==> |w| == 1)
    ensures ShowDecimal(DigitsValue(w)) == w
    decreases |w|
  {
    if |w| == 1 {
      assert w[..0] == [];
    } else {
      var p := w[..|w| - 1];
      assert p[0] == w[0];
      ShowOfParse(p);
      PrefixPositive(p);
      var d := (w[|w| - 1] - 0x30) as nat;
      var n := DigitsValue(w);
      assert n == 10 * DigitsValue(p) + d && d < 10;
      DivMod10(n, DigitsValue(p), d);
      assert ShowDecimal(n) == ShowDecimal(DigitsValue(p)) + [(0x30 + d) as byte];
      assert w == p + [w[|w| - 1]];
    }
  }

  lemma DivMod10(n: nat, q: nat, d: nat)
    requires n == 10 * q + d && d < 10
    ensures n / 10 == q && n % 10 == d
  {
  }

  lemma {:induction false} PrefixPositive(w: seq<byte>)
    requires w != [] && AllDigits(w) && w[0] != 0x30
    ensures DigitsValue(w) > 0
    decreases |w|
  {
    if |w| > 1 {
      var p := w[..|w| - 1];
      assert p[0] == w[0];
      PrefixPositive(p);
    }
  }

  // ---------------------------------------------------------------------
  // Truthiness (src/interp.rs:262-264)

  /** A byte string is truthy when some byte is nonzero. */
  predicate IsTruthy(w: seq<byte>)
  {
    exists i :: 0 <= i < |w| && w[i] != 0
  }

  /** Truthiness agrees with the numeric reading: truthy iff the number is not zero. */
  lemma {:induction false} TruthyIffNonzero(w: seq<byte>)
    ensures IsTruthy(w) <==> Decode(w) != 0
    decreases |w|
  {
    if w != [] {
      TruthyIffNonzero(w[1..]);
      if IsTruthy(w[1..]) {
        var i :| 0 <= i < |w[1..]| && w[1..][i] != 0;
        assert w[i + 1] != 0;
      }
      if IsTruthy(w) && w[0] == 0 {
        var i :| 0 <= i < |w| && w[i] != 0;
        assert w[1..][i - 1] != 0;
      }
    }
  }

  /** Appending zero bytes never changes truthiness. */
  lemma TruthyIgnoresTrailingZeros(w: seq<byte>, k: nat)
    ensures IsTruthy(w + Zeros(k)) == IsTruthy(w)
  {
    TruthyIffNonzero(w);
    TruthyIffNonzero(w + Zeros(k));
    DecodeIgnoresTrailingZeros(w, k);
  }
}
