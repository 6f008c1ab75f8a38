/** The root sampler's decision and the lists it writes, stated on the incoming text, the trace id and the random
    bits. */
module SamplerLaws {
  import opened Base
  import opened Text
  import opened Thresholds
  import opened Sampler

  // ----- the decision -----

  /** A written `rv` of 14 hexadecimal digits decides; without one, fresh random bits when the root writes them, and
      else the last 56 bits of the trace id. The trace is sampled when that number is at least 2^56 less the share
      kept. */
  lemma DecisionIsExact(ratio: real, writeRV: bool, ts: TraceState, d: Draw)
    requires 0.0 < ratio < 1.0
    ensures var rv := Get(Parsed(Lookup(ts, "ot")), "rv");
            var r := if rv.Some? && |rv.value| == 14 && HexNumber(rv.value).Some? then HexNumber(rv.value).value
                     else if writeRV then d.random else d.traceBits % MAX_THRESHOLD;
            ValidDraw(d) ==>
              (Decided(RootOf(ratio), writeRV, ts, d).0 <==> r >= MAX_THRESHOLD - Keep(RootOf(ratio)))
  {
    hide Parsed, Lookup, Stored, Get, SubKeys, Hex, HexNumber;
    var rv := Get(Parsed(Lookup(ts, "ot")), "rv");
    if rv.Some? && |rv.value| == 14 && HexNumber(rv.value).Some? {
      HexNumberBound(rv.value);
    }
  }

  /** Ratios of 1 and more take every trace, ratios of 0 and less none, and both leave the tracestate alone unless they
      are to write a missing `rv`. */
  lemma ConstantRootsAreExact(ratio: real, writeRV: bool, ts: TraceState, d: Draw)
    requires ratio <= 0.0 || ratio >= 1.0
    ensures Decided(RootOf(ratio), writeRV, ts, d).0 <==> ratio >= 1.0
    ensures !writeRV || Randomness(Parsed(Lookup(ts, "ot"))).Some? ==> Decided(RootOf(ratio), writeRV, ts, d).1 == ts
  {
    hide Parsed, Lookup, Stored, Get, Hex, HexNumber;
  }

  /** The sixteen digits in order, in lower or upper case. */
  lemma DigitsAreExact(c: char)
    ensures IsHex(c) <==> c in "0123456789abcdefABCDEF"
    ensures IsHex(c) ==> c == "0123456789abcdef"[HexValue(c)] || c == "0123456789ABCDEF"[HexValue(c)]
  {
    if IsHex(c) {
      var i := HexValue(c);
      assert "0123456789abcdefABCDEF"[if 'a' <= c || c <= '9' then i else i + 6] == c;
    }
  }

  // ----- lists of sub-keys -----

  /** A part without a colon or without a key is skipped; any other is split at its first colon. */
  lemma PartsAreExact(part: string)
    ensures ParsePart(part) == [] <==> ':' !in part || part[0] == ':'
    ensures ParsePart(part) != [] ==>
              && |ParsePart(part)| == 1 && part == ParsePart(part)[0].k + ":" + ParsePart(part)[0].v
              && ':' !in ParsePart(part)[0].k
  {
    match Cut(part, ':')
    case None =>
    case Some(kv) =>
      assert part == kv.0 + [':'] + kv.1;
      if kv.0 != "" {
        assert part[0] == kv.0[0] && kv.0[0] in kv.0;
      }
  }

  lemma WithoutNext(o: Fields, f: Field, k: string)
    ensures Without(o + [f], k) == Without(o, k) + if f.k == k then [] else [f]
  {
    assert (o + [f])[..|o|] == o;
  }

  lemma WithoutOneMore(a: Fields, c: Fields, f: Field, k: string)
    requires Without(a + c, k) == Without(a, k) + Without(c, k)
    ensures Without(a + (c + [f]), k) == Without(a, k) + Without(c + [f], k)
  {
    WithoutNext(a + c, f, k);
    WithoutNext(c, f, k);
    hide Without;
    assert a + c + [f] == a + (c + [f]);
    var w, v, e := Without(a, k), Without(c, k), if f.k == k then [] else [f];
    assert w + v + e == w + (v + e);
  }

  /** Removing a sub-key keeps the others in their order. */
  lemma {:induction false} WithoutKeepsOrder(a: Fields, b: Fields, k: string)
    ensures Without(a + b, k) == Without(a, k) + Without(b, k)
  {
    if b == [] {
      assert a + b == a;
    } else {
      hide Without;
      var n := |b| - 1;
      var c, f := b[..n], b[n];
      assert b == c + [f];
      WithoutKeepsOrder(a, c, k);
      WithoutOneMore(a, c, f, k);
    }
  }

  /** Setting one puts it in front of them, in place of all that had the key. */
  lemma WithIsInFront(o: Fields, k: string, v: string)
    ensures With(o, k, v) == [Field(k, v)] + Without(o, k)
    ensures forall f :: multiset(Without(o, k))[f] == if f.k == k then 0 else multiset(o)[f]
  {
    WithoutMultiplicity(o, k);
  }

  lemma {:induction false} WithoutMultiplicity(o: Fields, k: string)
    ensures forall f :: multiset(Without(o, k))[f] == if f.k == k then 0 else multiset(o)[f]
  {
    if o != [] {
      var n := |o| - 1;
      WithoutMultiplicity(o[..n], k);
      assert o == o[..n] + [o[n]];
    }
  }

  // ----- the other members -----

  lemma {:induction false} DeleteKeepsOthers(ts: TraceState, key: string, other: string)
    requires other != key
    ensures Lookup(Delete(ts, key), other) == Lookup(ts, other)
  {
    if ts != [] {
      DeleteKeepsOthers(ts[1..], key, other);
    }
  }

  /** Storing the `ot` member touches no other member, except that the right-most one goes when the list was full and
      had no `ot` yet. */
  lemma OtherMembersStay(ts: TraceState, o: Fields, other: string)
    requires other != "ot" && (|ts| < MAX_MEMBERS || |Delete(ts, "ot")| < |ts|)
    ensures Lookup(Stored(ts, o), other) == Lookup(ts, other)
  {
    hide Rendered, ValidValue, Fit;
    DeleteKeepsOthers(ts, "ot", other);
    DeleteLookup(ts, "ot");
  }

  // ----- probabilities -----

  function Power2(n: nat): real {
    if n == 0 then 1.0 else 2.0 * Power2(n - 1)
  }

  lemma {:induction false} HalvesAreInverse(n: nat)
    ensures HalfPower(n) * Power2(n) == 1.0 && HalfPower(n) > 0.0
  {
    if n > 0 {
      HalvesAreInverse(n - 1);
      var h, p := HalfPower(n - 1), Power2(n - 1);
      assert h / 2.0 * (2.0 * p) == h * p;
    }
  }

  /** The probability that a reader decodes: 1 - T/2^56 from a readable `th`; without one, from the legacy `p:n`, 2^-n
      for n up to 62 and 0 for 63; else none. */
  lemma ProbabilityIsExact(o: Fields)
    ensures var th := Get(o, "th");
            if th.Some? && ParseThreshold(th.value).Some?
            then Probability(o) == Some(1.0 - ParseThreshold(th.value).value as real / MAX_THRESHOLD as real)
            else
              var p := Get(o, "p");
              if p.Some? && Atoi(p.value).Some? && 0 <= Atoi(p.value).value <= 62
              then Probability(o).Some? && Probability(o).value * Power2(Atoi(p.value).value) == 1.0
              else if p.Some? && Atoi(p.value) == Some(63) then Probability(o) == Some(0.0)
              else Probability(o) == None
  {
    hide Get, ParseThreshold, Atoi;
    var p := Get(o, "p");
    if p.Some? && Atoi(p.value).Some? && 0 <= Atoi(p.value).value <= 62 {
      HalvesAreInverse(Atoi(p.value).value);
    }
  }
}
