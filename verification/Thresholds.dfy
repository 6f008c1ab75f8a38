/** The 56-bit rejection thresholds of the consistent probability sampler and their hexadecimal form
    (agents/go/sampler.go). */
module Thresholds {
  import opened Base

  const HEX_DIGITS: nat := 14

  /** 2 to the power 56. */
  const MAX_THRESHOLD: int := 0x100_0000_0000_0000

  predicate IsHex(c: char) {
    '0' <= c <= '9' || 'a' <= c <= 'f' || 'A' <= c <= 'F'
  }

  function HexValue(c: char): (d: int)
    requires IsHex(c)
    ensures 0 <= d < 16 && (d == 0 <==> c == '0')
  {
    if c <= '9' then c as int - '0' as int
    else if c <= 'F' then c as int - 'A' as int + 10
    else c as int - 'a' as int + 10
  }

  function HexChar(d: int): (c: char)
    requires 0 <= d < 16
    ensures IsHex(c) && HexValue(c) == d && (c <= '9' || 'a' <= c <= 'f')
  {
    if d < 10 then ('0' as int + d) as char else ('a' as int + d - 10) as char
  }

  /** The last `n` hexadecimal digits of `t`, in lower case. */
  function Hex(t: int, n: nat): (s: string)
    requires 0 <= t
    ensures |s| == n && forall c :: c in s ==> IsHex(c)
  {
    if n == 0 then "" else Hex(t / 16, n - 1) + [HexChar(t % 16)]
  }

  function HexNumber(s: string): (r: Option<int>)
    ensures r.Some? ==> r.value >= 0
  {
    if s == "" then Some(0)
    else
      var n := |s| - 1;
      match HexNumber(s[..n])
      case None => None
      case Some(v) => if IsHex(s[n]) then Some(v * 16 + HexValue(s[n])) else None
  }

  function Zeros(n: nat): (s: string)
    ensures |s| == n && forall c :: c in s ==> c == '0'
  {
    seq(n, _ => '0')
  }

  function TrimZeros(s: string): (r: string)
    ensures r <= s && (r != "" ==> r[|r| - 1] != '0')
  {
    if s != "" && s[|s| - 1] == '0' then TrimZeros(s[..|s| - 1]) else s
  }

  /** At most 14 digits without trailing zeros, `0` for zero. */
  function EncodeThreshold(t: int): string
    requires 0 <= t
  {
    var s := TrimZeros(Hex(t, HEX_DIGITS));
    if s == "" then "0" else s
  }

  function ParseThreshold(s: string): Option<int> {
    if |s| == 0 || |s| > HEX_DIGITS then None else HexNumber(s + Zeros(HEX_DIGITS - |s|))
  }

  // ----- the round trip -----

  function Pow16(n: nat): int {
    if n == 0 then 1 else 16 * Pow16(n - 1)
  }

  lemma {:induction false} HexReadsBack(t: int, n: nat)
    requires 0 <= t < Pow16(n)
    ensures HexNumber(Hex(t, n)) == Some(t)
  {
    if n > 0 {
      HexReadsBack(t / 16, n - 1);
      assert Hex(t, n)[..n - 1] == Hex(t / 16, n - 1);
    }
  }

  lemma {:induction false} TrimPads(s: string)
    ensures TrimZeros(s) + Zeros(|s| - |TrimZeros(s)|) == s
  {
    if s != "" && s[|s| - 1] == '0' {
      TrimPads(s[..|s| - 1]);
      assert s == s[..|s| - 1] + "0";
    }
  }

  lemma MaxIsPow16()
    ensures Pow16(HEX_DIGITS) == MAX_THRESHOLD
  {
    assert Pow16(7) == 0x1000_0000;
    assert Pow16(14) == 0x100_0000_0000_0000;
  }

  /** Every threshold is read back from its written form. */
  lemma ThresholdRoundTrip(t: int)
    requires 0 <= t < MAX_THRESHOLD
    ensures ParseThreshold(EncodeThreshold(t)) == Some(t)
    ensures 1 <= |EncodeThreshold(t)| <= HEX_DIGITS && forall c :: c in EncodeThreshold(t) ==> IsHex(c)
  {
    MaxIsPow16();
    var h := Hex(t, HEX_DIGITS);
    HexReadsBack(t, HEX_DIGITS);
    TrimPads(h);
    var e := EncodeThreshold(t);
    if TrimZeros(h) == "" {
      assert e + Zeros(HEX_DIGITS - |e|) == h;
    }
  }

  /** Texts of the same number have their zeros in the same places. */
  lemma {:induction false} SameZeros(s: string, t: int, i: nat)
    requires HexNumber(s) == Some(t) && i < |s| && s[i] == '0'
    ensures 0 <= t && Hex(t, |s|)[i] == '0'
  {
    var n := |s| - 1;
    var v := HexNumber(s[..n]).value;
    assert t == v * 16 + HexValue(s[n]);
    assert t / 16 == v && t % 16 == HexValue(s[n]);
    if i < n {
      SameZeros(s[..n], v, i);
    }
  }

  lemma {:induction false} TrimLength(s: string, n: nat)
    requires n <= |s| && forall i :: n <= i < |s| ==> s[i] == '0'
    ensures |TrimZeros(s)| <= n
  {
    if |s| > n {
      TrimLength(s[..|s| - 1], n);
    }
  }

  /** No text that is read as `t` is shorter than the one written for `t`. */
  lemma EncodingIsShortest(s: string, t: int)
    requires ParseThreshold(s) == Some(t)
    ensures 0 <= t < MAX_THRESHOLD && |EncodeThreshold(t)| <= |s|
  {
    var p := s + Zeros(HEX_DIGITS - |s|);
    HexNumberBound(p);
    MaxIsPow16();
    forall i | |s| <= i < HEX_DIGITS ensures Hex(t, HEX_DIGITS)[i] == '0' {
      SameZeros(p, t, i);
    }
    TrimLength(Hex(t, HEX_DIGITS), |s|);
  }

  lemma {:induction false} HexNumberBound(s: string)
    ensures HexNumber(s).Some? ==> HexNumber(s).value < Pow16(|s|)
  {
    if s != "" {
      HexNumberBound(s[..|s| - 1]);
    }
  }

  // ----- ratios -----

  /** `NewSampler`'s choice for new traces: everything, nothing, or the randomness values at or above a threshold. */
  datatype Root = Always | Never | AtLeast(threshold: int, th: string)

  /** `math.Round` of a value that is not negative. */
  function Round(x: real): int
    requires x >= 0.0
  {
    (x + 0.5).Floor
  }

  function RootOf(ratio: real): Root {
    if ratio >= 1.0 then Always
    else if ratio <= 0.0 then Never
    else
      var keep := Round(ratio * MAX_THRESHOLD as real);
      if keep >= MAX_THRESHOLD then Always
      else
        var t := MAX_THRESHOLD - if keep == 0 then 1 else keep;
        AtLeast(t, EncodeThreshold(t))
  }

  predicate Passes(root: Root, r: int) {
    root.Always? || (root.AtLeast? && r >= root.threshold)
  }

  /** How many of the 2^56 randomness values a root lets through. */
  function Keep(root: Root): int {
    match root
    case Always => MAX_THRESHOLD
    case Never => 0
    case AtLeast(t, _) => MAX_THRESHOLD - t
  }

  /** A higher ratio samples every randomness that a lower one samples. */
  lemma SamplingIsConsistent(a: real, b: real, r: int)
    requires a <= b && 0 <= r < MAX_THRESHOLD && Passes(RootOf(a), r)
    ensures Passes(RootOf(b), r)
  {
    if RootOf(a).AtLeast? && RootOf(b).AtLeast? {
      assert a * MAX_THRESHOLD as real <= b * MAX_THRESHOLD as real;
    }
  }

  /** The randomness values below `n` that pass. */
  ghost function Passing(root: Root, n: nat): set<int> {
    set r | 0 <= r < n && Passes(root, r)
  }

  lemma {:induction false} PassingSize(root: Root, n: nat)
    requires root.AtLeast? ==> 0 <= root.threshold
    ensures |Passing(root, n)| == if root.Always? then n else if root.Never? then 0 else Max(0, n - root.threshold)
  {
    if n > 0 {
      PassingSize(root, n - 1);
      var before := Passing(root, n - 1);
      assert Passing(root, n) == if Passes(root, n - 1) then before + {n - 1} else before;
    } else {
      assert Passing(root, n) == {};
    }
  }

  /** Exactly `Keep` of all values pass, and that is the ratio to within one part in 2^56 — and never nothing of a
      positive ratio. */
  lemma ExactlyKeepPass(ratio: real)
    ensures |Passing(RootOf(ratio), MAX_THRESHOLD)| == Keep(RootOf(ratio))
    ensures 0.0 <= ratio <= 1.0 ==> -1.0 < Keep(RootOf(ratio)) as real - ratio * MAX_THRESHOLD as real < 1.0
    ensures ratio > 0.0 ==> Keep(RootOf(ratio)) > 0
    ensures RootOf(ratio).AtLeast? ==> 0 < RootOf(ratio).threshold < MAX_THRESHOLD
  {
    if 0.0 < ratio < 1.0 {
      assert 0.0 < ratio * MAX_THRESHOLD as real < MAX_THRESHOLD as real;
    }
    PassingSize(RootOf(ratio), MAX_THRESHOLD);
  }
}
