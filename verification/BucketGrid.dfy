/** The bucket grid: starts, membership and reported timestamps, in 64-bit arithmetic. */
module BucketGrid {
  import opened Values

  const TWO_63: int := 0x8000_0000_0000_0000
  const TWO_64: int := 0x1_0000_0000_0000_0000

  /** Rust's `%`: the remainder takes the sign of the dividend. */
  function TruncRem(a: int, b: int): int
    requires b > 0
  {
    if a >= 0 then a % b else -((-a) % b)
  }

  /** What a wrapping i64 operation makes of an exact result. */
  function Wrap(x: int): int { (x + TWO_63) % TWO_64 - TWO_63 }

  predicate Aligned(s: int, align: int, d: int)
    requires d > 0
  {
    (s - align) % d == 0
  }

  /** `bucket_start_for`, when no intermediate result overflows. */
  function BucketStart(ts: int, align: int, d: int): (s: int)
    requires d > 0
    ensures s <= ts < s + d
    ensures Aligned(s, align, d)
  {
    var diff := ts - align;
    StartArithmetic(diff, d);
    ts - TruncRem(TruncRem(diff, d) + d, d)
  }

  lemma {:induction false} Multiple(k: int, d: int)
    requires d > 0 && k > 0
    ensures k * d >= d
  {
    if k > 1 {
      Multiple(k - 1, d);
      assert k * d == (k - 1) * d + d;
    }
  }

  /** A multiple of `d` strictly within `d` of 0 is 0. */
  lemma SmallMultiple(k: int, d: int)
    requires d > 0 && -d < k * d < d
    ensures k == 0
  {
    assert (-k) * d == -(k * d);
    if k > 0 { Multiple(k, d); }
    if k < 0 { Multiple(-k, d); }
  }

  lemma Remainder(x: int, d: int, q: int, r: int)
    requires d > 0 && x == q * d + r && 0 <= r < d
    ensures x % d == r
  {
    var q' := x / d;
    assert x == q' * d + x % d;
    assert (q - q') * d == q * d - q' * d;
    SmallMultiple(q - q', d);
  }

  lemma StartArithmetic(diff: int, d: int)
    requires d > 0
    ensures var back := TruncRem(TruncRem(diff, d) + d, d);
            0 <= back < d && (diff - back) % d == 0
  {
    if diff >= 0 {
      var q, r := diff / d, diff % d;
      Remainder(r + d, d, 1, r);
      Remainder(diff - r, d, q, 0);
    } else {
      var q, r := (-diff) / d, (-diff) % d;
      if r == 0 {
        Remainder(d, d, 1, 0);
        Remainder(diff, d, -q, 0);
      } else {
        Remainder(d - r, d, 0, d - r);
        assert diff - (d - r) == (-q - 1) * d;
        Remainder(diff - (d - r), d, -q - 1, 0);
      }
    }
  }

  /** Distinct aligned starts are at least one bucket apart. */
  lemma AlignedApart(b: int, c: int, align: int, d: int)
    requires d > 0 && Aligned(b, align, d) && Aligned(c, align, d)
    requires b < c
    ensures b + d <= c
  {
    var i, j := (b - align) / d, (c - align) / d;
    assert (j - i) * d == c - b;
    if c - b < d { SmallMultiple(j - i, d); }
  }

  lemma AlignedNext(b: int, align: int, d: int)
    requires d > 0 && Aligned(b, align, d)
    ensures Aligned(b + d, align, d)
  {
    var i := (b - align) / d;
    assert b + d - align == (i + 1) * d + 0;
    Remainder(b + d - align, d, i + 1, 0);
  }

  /** The start is the only aligned bucket that holds the timestamp. */
  lemma StartUnique(ts: int, b: int, align: int, d: int)
    requires d > 0 && Aligned(b, align, d)
    ensures b <= ts < b + d <==> BucketStart(ts, align, d) == b
  {
    var s := BucketStart(ts, align, d);
    if s < b { AlignedApart(s, b, align, d); }
    if b < s { AlignedApart(b, s, align, d); }
  }

  lemma StartMonotone(ts: int, ts': int, align: int, d: int)
    requires d > 0 && ts <= ts'
    ensures BucketStart(ts, align, d) <= BucketStart(ts', align, d)
  {
    var s, s' := BucketStart(ts, align, d), BucketStart(ts', align, d);
    if s' < s { AlignedApart(s', s, align, d); }
  }

  // -- machine arithmetic -----------------------------------------------------------------

  /** `bucket_start_for` as an i64 computes it, wrapping at every operation. */
  function BucketStartI64(ts: int, align: int, d: int): int
    requires d > 0
  {
    var diff := Wrap(ts - align);
    Wrap(ts - Wrap(TruncRem(Wrap(TruncRem(diff, d) + d), d)))
  }

  lemma WrapFits(x: int)
    ensures -TWO_63 <= x < TWO_63 ==> Wrap(x) == x
    ensures TWO_63 <= x < 2 * TWO_63 ==> Wrap(x) == x - TWO_64
  {
  }

  lemma TruncRemBounds(a: int, d: int)
    requires d > 0
    ensures -d < TruncRem(a, d) < d
    ensures a >= 0 ==> TruncRem(a, d) >= 0
    ensures a <= 0 ==> TruncRem(a, d) <= 0
  {
  }

  /**
   * The i64 computation finds the right bucket exactly when the shifted remainder still fits.
   */
  lemma MachineStartIff(ts: int, align: int, d: int)
    requires 0 <= ts <= I64_MAX && 0 <= align <= I64_MAX && 0 < d <= I64_MAX
    ensures BucketStartI64(ts, align, d) == BucketStart(ts, align, d)
            <==> TruncRem(ts - align, d) + d <= I64_MAX
  {
    hide TruncRem, Wrap, Aligned;
    var diff := ts - align;
    WrapFits(diff);
    var r := TruncRem(diff, d);
    TruncRemBounds(diff, d);
    WrapFits(r + d);
    var shifted := Wrap(r + d);
    var back := TruncRem(shifted, d);
    TruncRemBounds(shifted, d);
    WrapFits(back);
    WrapFits(ts - back);
    if r + d > I64_MAX {
      assert shifted < 0 && back <= 0;
      AfterOverflow(ts, align, d);
    }
  }

  /**
   * When it does not fit, the remainder wraps negative: the "start" lies at or after the timestamp,
   * or has wrapped around below zero. The true start lies before it.
   */
  lemma AfterOverflow(ts: int, align: int, d: int)
    requires 0 <= ts <= I64_MAX && 0 <= align <= I64_MAX && 0 < d <= I64_MAX
    requires TruncRem(ts - align, d) + d > I64_MAX
    ensures BucketStartI64(ts, align, d) == Wrap(ts + (TWO_64 - TruncRem(ts - align, d) - d) % d)
    ensures BucketStartI64(ts, align, d) >= ts || BucketStartI64(ts, align, d) < 0
    ensures BucketStart(ts, align, d) < ts
  {
    hide Wrap, TruncRem, Aligned;
    var r := TruncRem(ts - align, d);
    TruncRemBounds(ts - align, d);
    WrapFits(ts - align);
    WrapFits(r + d);
    NegativeRem(TWO_64 - r - d, d);
    var back := (TWO_64 - r - d) % d;
    WrapFits(-back);
    WrapFits(ts + back);
    StartedEarlier(r, d);
  }

  lemma NegativeRem(a: int, d: int)
    requires d > 0 && a > 0
    ensures TruncRem(-a, d) == -(a % d) && 0 <= a % d < d
  {
  }

  lemma StartedEarlier(r: int, d: int)
    requires 0 < r < d
    ensures TruncRem(r + d, d) == r
  {
    Remainder(r + d, d, 1, r);
  }

  /** A bucket duration just over 2^62 is enough: the start of 2^62 comes out above it. */
  lemma MachineStartFails()
    ensures var ts, d := TWO_63 / 2, TWO_63 / 2 + 1;
            BucketStart(ts, 0, d) == 0 && BucketStartI64(ts, 0, d) > ts
  {
    var ts, d := TWO_63 / 2, TWO_63 / 2 + 1;
    AfterOverflow(ts, 0, d);
    StartUnique(ts, 0, 0, d);
    assert (TWO_64 - ts - d) % d == TWO_63 / 2 - 2 by { Remainder(TWO_64 - ts - d, d, 1, TWO_63 / 2 - 2); }
  }

  /** Every duration up to 2^62 is safe. */
  lemma HalfRangeDurationsFit(ts: int, align: int, d: int)
    requires 0 <= ts <= I64_MAX && 0 <= align <= I64_MAX && 0 < d <= TWO_63 / 2
    ensures BucketStartI64(ts, align, d) == BucketStart(ts, align, d)
  {
    TruncRemBounds(ts - align, d);
    MachineStartIff(ts, align, d);
  }

  /**
   * The iterator's membership test compares with a saturated end. For timestamps at or after
   * the bucket it is the grid's own test, except at i64::MAX when the end does saturate.
   */
  lemma SaturatedMembership(b: int, ts: int, align: int, d: int)
    requires d > 0 && Aligned(b, align, d) && b <= ts <= I64_MAX
    ensures (ts < SaturatingAdd(b, d) <==> BucketStart(ts, align, d) == b)
            <==> !(ts == I64_MAX && b + d > I64_MAX)
  {
    StartUnique(ts, b, align, d);
  }

  /** A sample at i64::MAX is outside its own bucket, whatever the grid. */
  lemma MaxOutsideItsBucket(align: int, d: int)
    requires d > 0
    ensures var b := BucketStart(I64_MAX, align, d);
            !(I64_MAX < SaturatingAdd(b, d) <==> BucketStart(I64_MAX, align, d) == b)
  {
    SaturatedMembership(BucketStart(I64_MAX, align, d), I64_MAX, align, d);
  }

  // -- reported timestamps ------------------------------------------------------------------

  datatype BucketTimestamp = Start | End | Mid

  function Offset(out: BucketTimestamp, d: int): int {
    match out
    case Start => 0
    case Mid => d / 2
    case End => d
  }

  /** The start is clamped to 0 before, not after, it is moved to the middle or end. */
  function Render(out: BucketTimestamp, b: int, d: int): int {
    SaturatingAdd(if b < 0 then 0 else b, Offset(out, d))
  }

  /**
   * Where a bucket is reported: at its start, at the start of the next one, or half way there,
   * rounded down. Only the start of a bucket that begins before 0 is moved, to 0.
   */
  lemma RenderPlaces(b: int, align: int, d: int)
    requires d > 0 && Aligned(b, align, d) && b < I64_MAX
    ensures b >= 0 ==> Render(Start, b, d) == b
    ensures 0 <= b && b + d <= I64_MAX ==>
              var end, mid := Render(End, b, d), Render(Mid, b, d);
              && end == b + d && Aligned(end, align, d) && (forall t :: b <= t < end ==> BucketStart(t, align, d) == b)
              && BucketStart(mid, align, d) == b && 0 <= end - mid - (mid - b) <= 1
    ensures 0 <= b && Render(Mid, b, d) < I64_MAX ==> d - 1 <= 2 * (Render(Mid, b, d) - b) <= d
    ensures b < 0 ==> forall out :: Render(out, b, d) == Render(out, 0, d)
    ensures forall out :: 0 <= Render(out, b, d) <= I64_MAX
    ensures b + d > I64_MAX ==> Render(End, b, d) == I64_MAX
  {
    if 0 <= b && b + d <= I64_MAX {
      AlignedNext(b, align, d);
      forall t | b <= t < b + d
        ensures BucketStart(t, align, d) == b
      {
        StartUnique(t, b, align, d);
      }
    }
  }

  /**
   * Buckets that hold valid timestamps are reported at strictly increasing timestamps, exactly
   * as long as the earlier one's report does not saturate.
   */
  lemma RenderAscends(out: BucketTimestamp, b: int, c: int, align: int, d: int)
    requires d > 0 && Aligned(b, align, d) && Aligned(c, align, d)
    requires b < c <= I64_MAX && 0 < b + d
    ensures Render(out, b, d) < Render(out, c, d)
            <==> Render(out, b, d) < I64_MAX
    ensures Render(out, b, d) <= Render(out, c, d)
  {
    AlignedApart(b, c, align, d);
  }
}
