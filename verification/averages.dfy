/** Averages and peaks over groups of records, and over hierarchies of groups. Quantities the source
    keeps with two decimals are integers in hundredths here. */
module Averages {
  import opened Numbers
  import opened Words

  /** `twoDecimals(sum / n)` in hundredths: rounds half away from zero. */
  function Rounded(sum: int, n: int): int
    requires n > 0
  {
    if sum >= 0 then (2 * sum + n) / (2 * n) else -((-2 * sum + n) / (2 * n))
  }

  lemma RoundedNearest(sum: int, n: int)
    requires n > 0
    ensures -n <= 2 * (Rounded(sum, n) * n - sum) <= n
    ensures sum >= 0 ==> Rounded(sum, n) >= 0
  {
    var a := if sum >= 0 then 2 * sum + n else -2 * sum + n;
    var q := a / (2 * n);
    assert a == q * (2 * n) + a % (2 * n);
    assert q * (2 * n) == 2 * (q * n);
    assert (-q) * n == -(q * n);
  }

  /** A current value together with the peak seen so far. */
  datatype Peak = Peak(now: nat, max: nat)

  /** The scalar fields of a stats record: plain gauges, gauges with a peak, byte rates with a peak. */
  datatype Block = Block(plain: seq<nat>, gauges: seq<Peak>, bytes: seq<Peak>)

  predicate SameShape(a: Block, b: Block) {
    |a.plain| == |b.plain| && |a.gauges| == |b.gauges| && |a.bytes| == |b.bytes|
  }

  function Zero(plain: nat, gauges: nat, bytes: nat): Block {
    Block(seq(plain, _ => 0), seq(gauges, _ => Peak(0, 0)), seq(bytes, _ => Peak(0, 0)))
  }

  /** Accumulates one record: sums for averaging, and the peak over the running peak, the record's own
      peak and its current value. */
  function AddPeak(a: Peak, b: Peak): Peak { Peak(a.now + b.now, Max(a.max, Max(b.max, b.now))) }

  function AddBytes(a: Peak, b: Peak): Peak { Peak((a.now + b.now) % WORD, Max(a.max, Max(b.max, b.now))) }

  function Add(a: Block, b: Block): (c: Block)
    requires SameShape(a, b)
    ensures SameShape(c, a)
  {
    Block(seq(|a.plain|, i requires 0 <= i < |a.plain| => a.plain[i] + b.plain[i]),
          seq(|a.gauges|, i requires 0 <= i < |a.gauges| => AddPeak(a.gauges[i], b.gauges[i])),
          seq(|a.bytes|, i requires 0 <= i < |a.bytes| => AddBytes(a.bytes[i], b.bytes[i])))
  }

  /** Divides the sums by the number of records; peaks stay. */
  function Divide(a: Block, n: nat): (c: Block)
    requires n > 0
    ensures SameShape(c, a)
  {
    Block(seq(|a.plain|, i requires 0 <= i < |a.plain| => RoundedNat(a.plain[i], n)),
          seq(|a.gauges|, i requires 0 <= i < |a.gauges| => Peak(RoundedNat(a.gauges[i].now, n), a.gauges[i].max)),
          seq(|a.bytes|, i requires 0 <= i < |a.bytes| => Peak(a.bytes[i].now / n, a.bytes[i].max)))
  }

  function RoundedNat(sum: nat, n: nat): nat
    requires n > 0
  {
    (2 * sum + n) / (2 * n)
  }

  // ---------------------------------------------------------------- columns

  function SumOf(xs: seq<nat>): nat {
    if xs == [] then 0 else SumOf(xs[..|xs| - 1]) + xs[|xs| - 1]
  }

  function MaxOf(xs: seq<nat>): nat {
    if xs == [] then 0 else Max(MaxOf(xs[..|xs| - 1]), xs[|xs| - 1])
  }

  lemma {:induction false} MaxOfIsMax(xs: seq<nat>)
    ensures forall i | 0 <= i < |xs| :: xs[i] <= MaxOf(xs)
    ensures MaxOf(xs) == 0 || MaxOf(xs) in xs
  {
    if xs != [] {
      var init := xs[..|xs| - 1];
      MaxOfIsMax(init);
      forall i | 0 <= i < |xs| ensures xs[i] <= MaxOf(xs) {
        if i < |init| { assert init[i] == xs[i]; }
      }
    }
  }

  lemma {:induction false} SumBounded(xs: seq<nat>, m: nat)
    requires forall i | 0 <= i < |xs| :: xs[i] <= m
    ensures SumOf(xs) <= |xs| * m
  {
    if xs != [] {
      SumBounded(xs[..|xs| - 1], m);
      assert |xs| * m == (|xs| - 1) * m + m;
    }
  }

  /** Neither rounding to hundredths nor truncation lifts an average above the largest value. */
  lemma AverageBelowMax(xs: seq<nat>)
    requires xs != []
    ensures RoundedNat(SumOf(xs), |xs|) <= MaxOf(xs)
    ensures (SumOf(xs) % WORD) / |xs| <= MaxOf(xs)
  {
    var n, m, s := |xs|, MaxOf(xs), SumOf(xs);
    MaxOfIsMax(xs);
    SumBounded(xs, m);
    RoundedBelow(s, n, m);
    WrappedBelow(s);
    hide SumOf, MaxOf, RoundedNat;
    DivBelow(s % WORD, n, m);
  }

  lemma RoundedBelow(s: nat, n: nat, m: nat)
    requires n > 0 && s <= n * m
    ensures RoundedNat(s, n) <= m
  {
    var d := 2 * n;
    assert d * m == 2 * (n * m);
    DivBelow(2 * s + n, d, m);
  }

  lemma DivBelow(a: nat, d: nat, m: nat)
    requires d > 0 && a <= d * m + (d - 1)
    ensures a / d <= m
  {
    var q := a / d;
    assert q * d <= a < (m + 1) * d;
    LessFactor(q, m + 1, d);
  }

  lemma LessFactor(x: int, y: int, d: nat)
    requires x * d < y * d
    ensures x < y
  {
    MulMono(y, x, d);
  }

  lemma MulMono(x: int, y: int, d: nat)
    ensures x <= y ==> x * d <= y * d
  {}

  // ---------------------------------------------------------------- one group

  function Uniform(bs: seq<Block>): bool {
    bs != [] && forall i | 0 <= i < |bs| :: SameShape(bs[i], bs[0])
  }

  function Total(bs: seq<Block>): (t: Block)
    requires Uniform(bs)
    ensures SameShape(t, bs[0])
  {
    if |bs| == 1 then Add(Zero(|bs[0].plain|, |bs[0].gauges|, |bs[0].bytes|), bs[0])
    else Add(Total(bs[..|bs| - 1]), bs[|bs| - 1])
  }

  function Average(bs: seq<Block>): (t: Block)
    requires Uniform(bs)
    ensures SameShape(t, bs[0])
  {
    Divide(Total(bs), |bs|)
  }

  /** A field of a block that has a current value; plain gauges count as their own peak. */
  datatype Field = Plain(k: nat) | Gauge(k: nat) | Bytes(k: nat)

  predicate Has(b: Block, f: Field) {
    match f
    case Plain(k) => k < |b.plain|
    case Gauge(k) => k < |b.gauges|
    case Bytes(k) => k < |b.bytes|
  }

  function At(b: Block, f: Field): Peak {
    if !Has(b, f) then Peak(0, 0)
    else
      match f
      case Plain(k) => Peak(b.plain[k], 0)
      case Gauge(k) => b.gauges[k]
      case Bytes(k) => b.bytes[k]
  }

  function Top(p: Peak): nat { Max(p.max, p.now) }

  function Now(bs: seq<Block>, f: Field): seq<nat> {
    seq(|bs|, i requires 0 <= i < |bs| => At(bs[i], f).now)
  }

  function Tops(bs: seq<Block>, f: Field): seq<nat> {
    seq(|bs|, i requires 0 <= i < |bs| => Top(At(bs[i], f)))
  }

  /** The mean of a column as the field is averaged: rounded, or truncated over the wrapping sum. */
  function Mean(column: seq<nat>, f: Field): nat
    requires column != []
  {
    if f.Bytes? then (SumOf(column) % WORD) / |column| else RoundedNat(SumOf(column), |column|)
  }

  lemma ColumnsConcat(bs: seq<Block>, cs: seq<Block>, f: Field)
    ensures Now(bs + cs, f) == Now(bs, f) + Now(cs, f)
    ensures Tops(bs + cs, f) == Tops(bs, f) + Tops(cs, f)
  {
    hide At, Top;
  }

  lemma AddField(a: Block, b: Block, f: Field)
    requires SameShape(a, b) && Has(b, f)
    ensures At(Add(a, b), f).now ==
            if f.Bytes? then (At(a, f).now + At(b, f).now) % WORD else At(a, f).now + At(b, f).now
    ensures !f.Plain? ==> At(Add(a, b), f).max == Max(At(a, f).max, Top(At(b, f)))
  {}

  lemma {:induction false} TotalColumn(bs: seq<Block>, f: Field)
    requires Uniform(bs) && Has(bs[0], f)
    ensures At(Total(bs), f).now == if f.Bytes? then SumOf(Now(bs, f)) % WORD else SumOf(Now(bs, f))
    ensures !f.Plain? ==> At(Total(bs), f).max == MaxOf(Tops(bs, f))
  {
    var init, last := bs[..|bs| - 1], bs[|bs| - 1];
    ColumnsLast(bs, f);
    if |bs| > 1 {
      TotalColumn(init, f);
      AddField(Total(init), last, f);
      hide Add, At, Now, Tops, Has;
      WrapTwice(SumOf(Now(init, f)), At(last, f).now);
    } else {
      var zero := Zero(|last.plain|, |last.gauges|, |last.bytes|);
      ZeroField(zero, last, f);
      AddField(zero, last, f);
      hide Add, At, Now, Tops;
    }
  }

  lemma ZeroField(zero: Block, b: Block, f: Field)
    requires zero == Zero(|b.plain|, |b.gauges|, |b.bytes|)
    ensures At(zero, f) == Peak(0, 0)
  {}

  lemma ColumnsLast(bs: seq<Block>, f: Field)
    requires bs != []
    ensures
      var n := |bs| - 1;
      && Now(bs, f) == Now(bs[..n], f) + [At(bs[n], f).now] && Now(bs, f)[..n] == Now(bs[..n], f)
      && Tops(bs, f) == Tops(bs[..n], f) + [Top(At(bs[n], f))] && Tops(bs, f)[..n] == Tops(bs[..n], f)
  {
    hide At, Top;
  }

  /** What averaging a group does to a field, stated on the group's column: gauges become the rounded
      mean, byte rates the truncated mean of the wrapping sum, and peaks the maximum over current
      values and earlier peaks. */
  lemma AverageColumn(bs: seq<Block>, f: Field)
    requires Uniform(bs) && Has(bs[0], f)
    ensures At(Average(bs), f) == Peak(Mean(Now(bs, f), f), if f.Plain? then 0 else MaxOf(Tops(bs, f)))
  {
    TotalColumn(bs, f);
    hide Total;
  }

  /** After averaging, the peak bounds the current value: current values cannot outgrow peaks later. */
  lemma TopIsMax(bs: seq<Block>, f: Field)
    requires Uniform(bs) && Has(bs[0], f) && !f.Plain?
    ensures Top(At(Average(bs), f)) == At(Average(bs), f).max
  {
    AverageColumn(bs, f);
    AverageBelowMax(Now(bs, f));
    MaxBelow(Now(bs, f), Tops(bs, f));
    hide Average, SumOf, MaxOf, RoundedNat;
  }

  lemma {:induction false} MaxBelow(xs: seq<nat>, ys: seq<nat>)
    requires |xs| == |ys| && forall i | 0 <= i < |xs| :: xs[i] <= ys[i]
    ensures MaxOf(xs) <= MaxOf(ys)
  {
    if xs != [] { MaxBelow(xs[..|xs| - 1], ys[..|ys| - 1]); }
  }
}
