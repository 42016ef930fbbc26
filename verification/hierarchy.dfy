/** Averages of averages: what survives when records are rolled up tier after tier. */
module Hierarchy {
  import opened Numbers
  import opened Words
  import opened Reals
  import opened Averages

  /** How a longer record came about: a leaf is a measured record, a node the average of its children. */
  datatype Tree = Leaf(block: Block) | Node(children: seq<Tree>)

  predicate WellShaped(t: Tree, shape: Block) {
    match t
    case Leaf(b) => SameShape(b, shape)
    case Node(cs) => cs != [] && forall i | 0 <= i < |cs| :: WellShaped(cs[i], shape)
  }

  function Roll(t: Tree, shape: Block): (b: Block)
    requires WellShaped(t, shape)
    ensures SameShape(b, shape)
    decreases t, 1
  {
    match t
    case Leaf(b) => b
    case Node(cs) => Average(Rolls(cs, shape))
  }

  function Rolls(cs: seq<Tree>, shape: Block): (bs: seq<Block>)
    requires forall i | 0 <= i < |cs| :: WellShaped(cs[i], shape)
    ensures |bs| == |cs| && forall i | 0 <= i < |cs| :: bs[i] == Roll(cs[i], shape)
    ensures forall i | 0 <= i < |bs| :: SameShape(bs[i], shape)
    decreases cs, 0
  {
    if cs == [] then [] else [Roll(cs[0], shape)] + Rolls(cs[1..], shape)
  }

  function Leaves(t: Tree): seq<Block>
    decreases t, 1
  {
    match t
    case Leaf(b) => [b]
    case Node(cs) => LeavesOf(cs)
  }

  function LeavesOf(cs: seq<Tree>): seq<Block>
    decreases cs, 0
  {
    if cs == [] then [] else Leaves(cs[0]) + LeavesOf(cs[1..])
  }

  // ---------------------------------------------------------------- peaks

  lemma {:induction false} MaxOfConcat(xs: seq<nat>, ys: seq<nat>)
    ensures MaxOf(xs + ys) == Max(MaxOf(xs), MaxOf(ys))
  {
    if ys == [] {
      assert xs + ys == xs;
    } else {
      assert (xs + ys)[..|xs + ys| - 1] == xs + ys[..|ys| - 1];
      MaxOfConcat(xs, ys[..|ys| - 1]);
    }
  }

  lemma {:induction false} TopSurvives(t: Tree, shape: Block, f: Field)
    requires WellShaped(t, shape) && Has(shape, f) && !f.Plain?
    ensures Top(At(Roll(t, shape), f)) == MaxOf(Tops(Leaves(t), f))
    decreases t, 1
  {
    match t
    case Leaf(b) =>
      assert Tops([b], f) == [] + [Top(At(b, f))];
    case Node(cs) =>
      TopsSurvive(cs, shape, f);
      TopIsMax(Rolls(cs, shape), f);
      AverageColumn(Rolls(cs, shape), f);
  }

  lemma {:induction false} TopsSurvive(cs: seq<Tree>, shape: Block, f: Field)
    requires forall i | 0 <= i < |cs| :: WellShaped(cs[i], shape)
    requires Has(shape, f) && !f.Plain?
    ensures MaxOf(Tops(Rolls(cs, shape), f)) == MaxOf(Tops(LeavesOf(cs), f))
    decreases cs, 0
  {
    if cs == [] {
      assert Tops([], f) == [];
    } else {
      TopSurvives(cs[0], shape, f);
      TopsSurvive(cs[1..], shape, f);
      var first, top := [Roll(cs[0], shape)], [Top(At(Roll(cs[0], shape), f))];
      hide Roll, At, Top, WellShaped, Leaves, Average, Has;
      OneTop(first, top, f);
      hide Tops, MaxOf;
      ColumnsConcat(first, Rolls(cs[1..], shape), f);
      ColumnsConcat(Leaves(cs[0]), LeavesOf(cs[1..]), f);
      MaxOfConcat(top, Tops(Rolls(cs[1..], shape), f));
      MaxOfConcat(Tops(Leaves(cs[0]), f), Tops(LeavesOf(cs[1..]), f));
    }
  }

  lemma OneTop(first: seq<Block>, top: seq<nat>, f: Field)
    requires |first| == 1 && top == [Top(At(first[0], f))]
    ensures Tops(first, f) == top && MaxOf(top) == top[0]
  {
    hide Top, At;
    assert top[..0] == [];
  }

  /** Peaks survive the hierarchy: after any tree of rollups, every peak at the root is the maximum of
      the current and peak values over all leaves, whether or not byte sums wrapped around. */
  lemma PeaksSurvive(t: Tree, shape: Block, f: Field)
    requires WellShaped(t, shape) && t.Node? && Has(shape, f) && !f.Plain?
    ensures At(Roll(t, shape), f).max == MaxOf(Tops(Leaves(t), f))
  {
    TopSurvives(t, shape, f);
    TopIsMax(Rolls(t.children, shape), f);
  }

  // ---------------------------------------------------------------- error across tiers

  /** The exact mean of the children's exact means, all the way down. */
  function MeanOfMeans(t: Tree, f: Field): real
    decreases t, 1
  {
    match t
    case Leaf(b) => At(b, f).now as real
    case Node(cs) => if cs == [] then 0.0 else SumOfMeans(cs, f) / |cs| as real
  }

  function SumOfMeans(cs: seq<Tree>, f: Field): real
    decreases cs, 0
  {
    if cs == [] then 0.0 else MeanOfMeans(cs[0], f) + SumOfMeans(cs[1..], f)
  }

  /** The number of tiers above the deepest leaf. */
  function Height(t: Tree): nat
    decreases t, 1
  {
    match t
    case Leaf(_) => 0
    case Node(cs) => 1 + HeightOf(cs)
  }

  function HeightOf(cs: seq<Tree>): nat
    decreases cs, 0
  {
    if cs == [] then 0 else Max(Height(cs[0]), HeightOf(cs[1..]))
  }

  lemma {:induction false} SumOfConcat(xs: seq<nat>, ys: seq<nat>)
    ensures SumOf(xs + ys) == SumOf(xs) + SumOf(ys)
  {
    if ys == [] {
      assert xs + ys == xs;
    } else {
      assert (xs + ys)[..|xs + ys| - 1] == xs + ys[..|ys| - 1];
      SumOfConcat(xs, ys[..|ys| - 1]);
    }
  }

  lemma {:induction false} MaxBelowSum(xs: seq<nat>)
    ensures MaxOf(xs) <= SumOf(xs)
  {
    if xs != [] { MaxBelowSum(xs[..|xs| - 1]); }
  }

  lemma NodeColumn(cs: seq<Tree>, shape: Block, f: Field)
    requires cs != [] && (forall i | 0 <= i < |cs| :: WellShaped(cs[i], shape)) && Has(shape, f)
    ensures At(Roll(Node(cs), shape), f).now == Mean(Now(Rolls(cs, shape), f), f)
  {
    AverageColumn(Rolls(cs, shape), f);
  }

  /** The current values of a node's children, first one split off. */
  lemma RootsSplit(cs: seq<Tree>, shape: Block, f: Field)
    requires cs != [] && (forall i | 0 <= i < |cs| :: WellShaped(cs[i], shape)) && Has(shape, f)
    ensures
      SumOf(Now(Rolls(cs, shape), f)) == At(Roll(cs[0], shape), f).now + SumOf(Now(Rolls(cs[1..], shape), f))
  {
    var first, v := [Roll(cs[0], shape)], [At(Roll(cs[0], shape), f).now];
    assert Now(first, f) == v && v[..0] == [];
    assert SumOf(v) == v[0];
    hide Roll, At, Now, WellShaped, SumOf, Leaves, Has;
    ColumnsConcat(first, Rolls(cs[1..], shape), f);
    SumOfConcat(v, Now(Rolls(cs[1..], shape), f));
  }

  lemma LeavesSplit(cs: seq<Tree>, f: Field)
    requires cs != []
    ensures SumOf(Now(LeavesOf(cs), f)) == SumOf(Now(Leaves(cs[0]), f)) + SumOf(Now(LeavesOf(cs[1..]), f))
  {
    hide SumOf, Now, Leaves;
    ColumnsConcat(Leaves(cs[0]), LeavesOf(cs[1..]), f);
    SumOfConcat(Now(Leaves(cs[0]), f), Now(LeavesOf(cs[1..]), f));
  }

  /** A root never exceeds the total of its leaves; so no sum below it wraps around unless theirs would. */
  lemma {:induction false} RootBelowLeaves(t: Tree, shape: Block, f: Field)
    requires WellShaped(t, shape) && Has(shape, f)
    ensures At(Roll(t, shape), f).now <= SumOf(Now(Leaves(t), f))
    decreases t, 1
  {
    match t
    case Leaf(b) => LeafSum(b, f);
    case Node(cs) =>
      RootsBelowLeaves(cs, shape, f);
      NodeColumn(cs, shape, f);
      hide Roll, At, Now, WellShaped, Has, SumOf, MaxOf, RoundedNat;
      AverageBelowMax(Now(Rolls(cs, shape), f));
      MaxBelowSum(Now(Rolls(cs, shape), f));
  }

  lemma LeafSum(b: Block, f: Field)
    ensures SumOf(Now([b], f)) == At(b, f).now
  {
    assert Now([b], f) == [] + [At(b, f).now];
  }

  lemma {:induction false} RootsBelowLeaves(cs: seq<Tree>, shape: Block, f: Field)
    requires (forall i | 0 <= i < |cs| :: WellShaped(cs[i], shape)) && Has(shape, f)
    ensures SumOf(Now(Rolls(cs, shape), f)) <= SumOf(Now(LeavesOf(cs), f))
    decreases cs, 0
  {
    if cs == [] {
      assert Now([], f) == [];
    } else {
      RootBelowLeaves(cs[0], shape, f);
      RootsBelowLeaves(cs[1..], shape, f);
      hide Roll, At, Now, WellShaped, SumOf, Leaves, Has;
      RootsSplit(cs, shape, f);
      LeavesSplit(cs, f);
    }
  }

  /** A truncated value never exceeds the exact one and falls short of it by less than k. */
  predicate JustBelow(root: nat, exact: real, k: nat) {
    root as real <= exact && if k == 0 then root as real == exact else exact < (root + k) as real
  }

  /** Truncation, over any hierarchy whose leaves' total fits in 64 bits, however uneven its groups: the root
      never exceeds the exact mean of means and falls short of it by less than the number of tiers. */
  lemma {:induction false} TruncationAnyGroups(t: Tree, shape: Block, f: Field)
    requires WellShaped(t, shape) && Has(shape, f) && f.Bytes? && SumOf(Now(Leaves(t), f)) < WORD
    ensures JustBelow(At(Roll(t, shape), f).now, MeanOfMeans(t, f), Height(t))
    decreases t, 1
  {
    if t.Node? {
      var cs := t.children;
      TruncationOfAll(cs, shape, f, HeightOf(cs));
      RootsBelowLeaves(cs, shape, f);
      NodeColumn(cs, shape, f);
      hide Roll, At, Now, WellShaped, Has, SumOf, SumOfMeans, HeightOf, LeavesOf;
      SmallMod(SumOf(Now(Rolls(cs, shape), f)));
      TruncatedMean(SumOf(Now(Rolls(cs, shape), f)), SumOfMeans(cs, f), |cs|, HeightOf(cs));
    }
  }

  lemma {:induction false} TruncationOfAll(cs: seq<Tree>, shape: Block, f: Field, d: nat)
    requires (forall i | 0 <= i < |cs| :: WellShaped(cs[i], shape)) && Has(shape, f) && f.Bytes?
    requires SumOf(Now(LeavesOf(cs), f)) < WORD && HeightOf(cs) <= d
    ensures
      var sum := SumOf(Now(Rolls(cs, shape), f));
      sum as real <= SumOfMeans(cs, f) <= (sum + |cs| * d) as real
    decreases cs, 0
  {
    if cs == [] {
      assert Now([], f) == [];
    } else {
      hide At, Now, WellShaped, SumOf, Leaves, LeavesOf, Has, MeanOfMeans, Height, JustBelow;
      RootsSplit(cs, shape, f);
      LeavesSplit(cs, f);
      TruncationAnyGroups(cs[0], shape, f);
      TruncationOfAll(cs[1..], shape, f, d);
      hide Roll, Rolls;
      OneMore(|cs|, d);
      AddBelow(At(Roll(cs[0], shape), f).now, MeanOfMeans(cs[0], f), Height(cs[0]),
               SumOf(Now(Rolls(cs[1..], shape), f)), SumOfMeans(cs[1..], f), (|cs| - 1) * d, d);
    }
  }

  lemma AddBelow(root: nat, exact: real, k: nat, sum: nat, rest: real, spread: nat, d: nat)
    requires JustBelow(root, exact, k) && k <= d && sum as real <= rest <= (sum + spread) as real
    ensures (root + sum) as real <= exact + rest <= (root + sum + (d + spread)) as real
  {}

  lemma OneMore(n: nat, d: nat)
    requires n > 0
    ensures n * d == d + (n - 1) * d
  {}

  lemma TruncatedMean(sum: nat, exact: real, n: nat, d: nat)
    requires n > 0 && sum as real <= exact <= (sum + n * d) as real
    ensures JustBelow(sum / n, exact / n as real, d + 1)
  {
    hide Times;
    QuotientOf(sum, n);
    TimesNat(sum / n, n);
    TimesNat(n, d);
    TimesCommute(n as real, d as real);
    QuotientJustAbove(exact, (sum / n) as real, d as real, n as real);
  }

  lemma QuotientJustAbove(x: real, q: real, d: real, f: real)
    requires f > 0.0 && Times(q, f) <= x < Times(q, f) + f + Times(d, f)
    ensures q <= x / f < q + (d + 1.0)
  {
    hide Times;
    TimesAdd(d, 1.0, f);
    TimesAdd(q, d + 1.0, f);
    TimesOver(x, f);
    QuotientCompares(x, f, q);
    QuotientCompares(x, f, q + (d + 1.0));
  }

  lemma QuotientOf(sum: nat, n: nat)
    requires n > 0
    ensures sum / n * n <= sum < sum / n * n + n
  {}

  lemma TimesCommute(a: real, b: real)
    ensures Times(a, b) == Times(b, a)
  {}

  /** Rounding, over any hierarchy: the root is within half a hundredth per tier of the exact mean of means. */
  lemma {:induction false} RoundingAnyGroups(t: Tree, shape: Block, f: Field)
    requires WellShaped(t, shape) && Has(shape, f) && !f.Bytes?
    ensures Near(At(Roll(t, shape), f).now, MeanOfMeans(t, f), Height(t))
    decreases t, 1
  {
    if t.Node? {
      var cs := t.children;
      RoundingOfAll(cs, shape, f, HeightOf(cs));
      NodeColumn(cs, shape, f);
      hide Roll, At, Now, WellShaped, Has, SumOf, SumOfMeans, HeightOf, RoundedNat;
      RoundedMean(SumOf(Now(Rolls(cs, shape), f)), SumOfMeans(cs, f), |cs|, HeightOf(cs));
    }
  }

  predicate Near(root: nat, exact: real, k: nat) {
    -(k as real) <= 2.0 * (exact - root as real) <= k as real
  }

  lemma {:induction false} RoundingOfAll(cs: seq<Tree>, shape: Block, f: Field, d: nat)
    requires (forall i | 0 <= i < |cs| :: WellShaped(cs[i], shape)) && Has(shape, f) && !f.Bytes?
    requires HeightOf(cs) <= d
    ensures Near(SumOf(Now(Rolls(cs, shape), f)), SumOfMeans(cs, f), |cs| * d)
    decreases cs, 0
  {
    if cs == [] {
      assert Now([], f) == [];
    } else {
      hide At, Now, WellShaped, SumOf, Leaves, LeavesOf, Has, MeanOfMeans, Height, Near;
      RootsSplit(cs, shape, f);
      RoundingAnyGroups(cs[0], shape, f);
      RoundingOfAll(cs[1..], shape, f, d);
      hide Roll, Rolls;
      OneMore(|cs|, d);
      AddNear(At(Roll(cs[0], shape), f).now, MeanOfMeans(cs[0], f), Height(cs[0]),
              SumOf(Now(Rolls(cs[1..], shape), f)), SumOfMeans(cs[1..], f), (|cs| - 1) * d, d);
    }
  }

  lemma AddNear(root: nat, exact: real, k: nat, sum: nat, rest: real, spread: nat, d: nat)
    requires Near(root, exact, k) && k <= d && Near(sum, rest, spread)
    ensures Near(root + sum, exact + rest, d + spread)
  {}

  lemma RoundedMean(sum: nat, exact: real, n: nat, d: nat)
    requires n > 0 && Near(sum, exact, n * d)
    ensures Near(RoundedNat(sum, n), exact / n as real, d + 1)
  {
    RoundedNearest(sum, n);
    hide RoundedNat, Times;
    TimesNat(RoundedNat(sum, n), n);
    TimesNat(n, d);
    TimesCommute(n as real, d as real);
    QuotientNear(exact, sum as real, RoundedNat(sum, n) as real, d as real, n as real);
  }

  lemma QuotientNear(x: real, sum: real, q: real, d: real, f: real)
    requires f > 0.0 && -Times(d, f) <= 2.0 * (x - sum) <= Times(d, f)
    requires -f <= 2.0 * (Times(q, f) - sum) <= f
    ensures -(d + 1.0) <= 2.0 * (x / f - q) <= d + 1.0
  {
    hide Times;
    TimesOver(x, f);
    TwiceBelow(x / f, q, d + 1.0, f);
    TwiceBelow(q, x / f, d + 1.0, f);
    TimesAdd(d, 1.0, f);
  }

  lemma TwiceBelow(a: real, b: real, gap: real, f: real)
    requires f > 0.0
    ensures Times(a, f) + Times(a, f) <= Times(b, f) + Times(b, f) + Times(gap, f) ==> 2.0 * (a - b) <= gap
  {
    hide Times;
    TimesAdd(a, a, f);
    TimesAdd(b, b, f);
    TimesAdd(b + b, gap, f);
    TimesLess(b + b + gap, a + a, f);
  }

  // ---------------------------------------------------------------- uniform groups

  /** All nodes of a level have the same number of children. */
  predicate Balanced(t: Tree, sizes: seq<nat>) {
    if sizes == [] then t.Leaf?
    else t.Node? && |t.children| == sizes[0] > 0
         && forall i | 0 <= i < |t.children| :: Balanced(t.children[i], sizes[1..])
  }

  function Product(sizes: seq<nat>): nat {
    if sizes == [] then 1 else sizes[0] * Product(sizes[1..])
  }

  lemma MulPositive(a: nat, b: nat)
    requires a > 0 && b > 0
    ensures a * b > 0
  {}

  lemma {:induction false} LeafCount(t: Tree, sizes: seq<nat>)
    requires Balanced(t, sizes)
    ensures |Leaves(t)| == Product(sizes) > 0
    decreases t, 1
  {
    if t.Node? {
      LeafCounts(t.children, sizes[1..]);
      MulPositive(sizes[0], Product(sizes[1..]));
    }
  }

  lemma {:induction false} LeafCounts(cs: seq<Tree>, sizes: seq<nat>)
    requires forall i | 0 <= i < |cs| :: Balanced(cs[i], sizes)
    ensures |LeavesOf(cs)| == |cs| * Product(sizes)
    ensures cs != [] ==> Product(sizes) > 0
    decreases cs, 0
  {
    if cs != [] {
      LeafCount(cs[0], sizes);
      LeafCounts(cs[1..], sizes);
      assert |cs| * Product(sizes) == Product(sizes) + (|cs| - 1) * Product(sizes);
    }
  }

  /** x is the exact mean of n values with this total. */
  predicate MeanIs(x: real, n: nat, total: nat) { Times(x, n as real) == total as real }

  /** With uniform groups the mean of means is the mean of the leaves, and all leaves are equally deep. */
  lemma {:induction false} BalancedMean(t: Tree, sizes: seq<nat>, f: Field)
    requires Balanced(t, sizes)
    ensures MeanIs(MeanOfMeans(t, f), Product(sizes), SumOf(Now(Leaves(t), f))) && Height(t) == |sizes|
    decreases t, 1
  {
    match t
    case Leaf(b) => LeafSum(b, f);
    case Node(cs) =>
      BalancedMeans(cs, sizes[1..], f);
      hide SumOfMeans, Now, SumOf, At, LeavesOf, HeightOf, MeanIs;
      MeanOfGroup(SumOfMeans(cs, f), |cs|, Product(sizes[1..]), SumOf(Now(LeavesOf(cs), f)));
  }

  lemma MeanOfGroup(x: real, n: nat, m: nat, total: nat)
    requires n > 0 && MeanIs(x, m, total)
    ensures MeanIs(x / n as real, n * m, total)
  {
    hide Times;
    TimesNat(n, m);
    TimesGroup(x, n as real, m as real);
  }

  lemma {:induction false} BalancedMeans(cs: seq<Tree>, sizes: seq<nat>, f: Field)
    requires forall i | 0 <= i < |cs| :: Balanced(cs[i], sizes)
    ensures MeanIs(SumOfMeans(cs, f), Product(sizes), SumOf(Now(LeavesOf(cs), f)))
    ensures cs != [] ==> HeightOf(cs) == |sizes|
    decreases cs, 0
  {
    if cs == [] {
      assert Now([], f) == [];
    } else {
      hide Balanced, Leaves, At, Now, SumOf, Product, MeanOfMeans, Height, MeanIs;
      BalancedMean(cs[0], sizes, f);
      BalancedMeans(cs[1..], sizes, f);
      LeavesSplit(cs, f);
      MeansAdd(MeanOfMeans(cs[0], f), SumOfMeans(cs[1..], f), Product(sizes),
               SumOf(Now(Leaves(cs[0]), f)), SumOf(Now(LeavesOf(cs[1..]), f)));
    }
  }

  lemma MeansAdd(x: real, y: real, m: nat, a: nat, b: nat)
    requires MeanIs(x, m, a) && MeanIs(y, m, b)
    ensures MeanIs(x + y, m, a + b)
  {
    hide Times;
    TimesAdd(x, y, m as real);
  }

  /** A truncated value that stands for the mean of n values never exceeds it, and falls short of it by
      less than k; both sides are multiplied by n. */
  predicate Close(root: nat, total: nat, n: nat, k: nat) {
    root * n <= total && if k == 0 then total == root * n else total < (root + k) * n
  }

  /** So with uniform groups a truncated root stands for the mean of its leaves, short by less than the number
      of tiers. */
  lemma TruncationError(t: Tree, shape: Block, sizes: seq<nat>, f: Field)
    requires WellShaped(t, shape) && Balanced(t, sizes) && Has(shape, f) && f.Bytes?
    requires SumOf(Now(Leaves(t), f)) < WORD
    ensures
      var root, total, n := At(Roll(t, shape), f).now, SumOf(Now(Leaves(t), f)), Product(sizes);
      n == |Leaves(t)| > 0 && Close(root, total, n, |sizes|)
  {
    hide Balanced, Leaves, At, Now, SumOf, Product, MeanOfMeans, Height, Roll, WellShaped, Has, JustBelow, Close,
      MeanIs;
    LeafCount(t, sizes);
    BalancedMean(t, sizes, f);
    TruncationAnyGroups(t, shape, f);
    BelowMeansClose(At(Roll(t, shape), f).now, MeanOfMeans(t, f), SumOf(Now(Leaves(t), f)), Product(sizes), |sizes|);
  }

  lemma BelowMeansClose(root: nat, exact: real, total: nat, n: nat, k: nat)
    requires n > 0 && JustBelow(root, exact, k) && MeanIs(exact, n, total)
    ensures Close(root, total, n, k)
  {
    hide Times;
    TimesNat(root, n);
    TimesNat(root + k, n);
    TimesLess(exact, root as real, n as real);
    TimesLess(exact, (root + k) as real, n as real);
  }

  /** Likewise a rounded root is within half a hundredth per tier of the mean of its leaves. */
  lemma RoundingError(t: Tree, shape: Block, sizes: seq<nat>, f: Field)
    requires WellShaped(t, shape) && Balanced(t, sizes) && Has(shape, f) && !f.Bytes?
    ensures
      var root, total, n := At(Roll(t, shape), f).now, SumOf(Now(Leaves(t), f)), Product(sizes);
      n == |Leaves(t)| > 0 && -(|sizes| * n) <= 2 * (total - root * n) <= |sizes| * n
  {
    hide Balanced, Leaves, At, Now, SumOf, Product, MeanOfMeans, Height, Roll, WellShaped, Has, Near, MeanIs;
    LeafCount(t, sizes);
    BalancedMean(t, sizes, f);
    RoundingAnyGroups(t, shape, f);
    NearMeansWithin(At(Roll(t, shape), f).now, MeanOfMeans(t, f), SumOf(Now(Leaves(t), f)), Product(sizes), |sizes|);
  }

  lemma NearMeansWithin(root: nat, exact: real, total: nat, n: nat, k: nat)
    requires n > 0 && Near(root, exact, k) && MeanIs(exact, n, total)
    ensures -(k * n) <= 2 * (total - root * n) <= k * n
  {
    var r, e, g, f := root as real, exact, k as real, n as real;
    TimesNat(root, n);
    TimesNat(k, n);
    hide Times;
    TimesAdd(r, r, f);
    TimesAdd(e, e, f);
    TimesAdd(e + e, g, f);
    TimesAdd(r + r, g, f);
    TimesLess(e + e + g, r + r, f);
    TimesLess(r + r + g, e + e, f);
  }
}
