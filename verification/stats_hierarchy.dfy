/** System records rolled up tier after tier by the averaging loops: what a record of the longest type
    says about the measured records it goes back to. */
module StatsHierarchy {
  import opened Words
  import opened Averages
  import opened SystemStats
  import Hierarchy

  /** Where a record comes from: measured, or made by averaging other records. */
  datatype Origin = Measured(stats: Stats) | Made(stats: Stats, parts: seq<Origin>)

  function StatsOf(parts: seq<Origin>): seq<Stats> {
    seq(|parts|, i requires 0 <= i < |parts| => parts[i].stats)
  }

  /** Every made record is the average of its parts. */
  ghost predicate Genuine(t: Origin) {
    t.Made? ==>
      && t.parts != [] && Averaged(StatsOf(t.parts), t.stats)
      && forall i | 0 <= i < |t.parts| :: Genuine(t.parts[i])
  }

  /** The scalars of the record itself, or those of one extra filesystem. */
  datatype View = Main | Fs(name: string)

  function Shape(v: View): Block {
    match v
    case Main => Empty.main
    case Fs(_) => NO_FS
  }

  function Look(s: Stats, v: View): (b: Block)
    ensures SameShape(b, Shape(v))
  {
    match v
    case Main => s.main
    case Fs(k) => Get(Given(s.extraFs), k, NO_FS)
  }

  function Looks(rs: seq<Stats>, v: View): (bs: seq<Block>)
    ensures |bs| == |rs| && forall i | 0 <= i < |bs| :: SameShape(bs[i], Shape(v))
  {
    seq(|rs|, i requires 0 <= i < |rs| => Look(rs[i], v))
  }

  lemma {:induction false} AveragedLook(rs: seq<Stats>, avg: Stats, v: View)
    requires rs != [] && Averaged(rs, avg)
    ensures Look(avg, v) == Average(Looks(rs, v))
  {
    match v
    case Main =>
      hide Average;
      assert Looks(rs, v) == Mains(rs);
    case Fs(k) =>
      FilesystemsAverage(rs, avg, k);
      hide Average, Averaged;
      assert Looks(rs, v) == Column(Filesystems(rs), k, NO_FS);
  }

  /** The measured records a record goes back to. */
  function Sources(t: Origin): seq<Stats>
    decreases t, 1
  {
    if t.Measured? then [t.stats] else SourcesOf(t.parts)
  }

  function SourcesOf(ts: seq<Origin>): seq<Stats>
    decreases ts, 0
  {
    if ts == [] then [] else Sources(ts[0]) + SourcesOf(ts[1..])
  }

  function TreeOf(t: Origin, v: View): Hierarchy.Tree
    decreases t, 1
  {
    if t.Measured? then Hierarchy.Leaf(Look(t.stats, v)) else Hierarchy.Node(TreesOf(t.parts, v))
  }

  function TreesOf(ts: seq<Origin>, v: View): (trees: seq<Hierarchy.Tree>)
    ensures |trees| == |ts| && forall i | 0 <= i < |ts| :: trees[i] == TreeOf(ts[i], v)
    decreases ts, 0
  {
    if ts == [] then [] else [TreeOf(ts[0], v)] + TreesOf(ts[1..], v)
  }

  /** The root of a record's hierarchy is its own view. */
  predicate RootIs(t: Origin, v: View) {
    Hierarchy.WellShaped(TreeOf(t, v), Shape(v)) && Hierarchy.Roll(TreeOf(t, v), Shape(v)) == Look(t.stats, v)
  }

  /** The hierarchy of one view: its root is the record's, its leaves those of the measured records. */
  lemma {:induction false} TreeIs(t: Origin, v: View)
    requires Genuine(t)
    ensures RootIs(t, v) && Hierarchy.Leaves(TreeOf(t, v)) == Looks(Sources(t), v)
    decreases t, 1
  {
    hide Averaged, Average, Look;
    if t.Measured? {
      assert Looks([t.stats], v) == [Look(t.stats, v)];
    } else {
      var ts := t.parts;
      TreesAre(ts, v);
      AveragedLook(StatsOf(ts), t.stats, v);
      assert Hierarchy.Rolls(TreesOf(ts, v), Shape(v)) == Looks(StatsOf(ts), v);
    }
  }

  lemma LooksConcat(rs: seq<Stats>, ss: seq<Stats>, v: View)
    ensures Looks(rs + ss, v) == Looks(rs, v) + Looks(ss, v)
    ensures Looks([], v) == []
  {
    hide Look;
  }

  lemma {:induction false} TreesAre(ts: seq<Origin>, v: View)
    requires forall i | 0 <= i < |ts| :: Genuine(ts[i])
    ensures forall i | 0 <= i < |ts| :: RootIs(ts[i], v)
    ensures Hierarchy.LeavesOf(TreesOf(ts, v)) == Looks(SourcesOf(ts), v)
    decreases ts, 0
  {
    if ts != [] {
      hide Genuine, RootIs, TreeOf, Looks, Hierarchy.Leaves, Sources;
      TreeIs(ts[0], v);
      TreesAre(ts[1..], v);
      LooksConcat(Sources(ts[0]), SourcesOf(ts[1..]), v);
      assert forall i | 1 <= i < |ts| :: ts[i] == ts[1..][i - 1];
    }
  }

  /** Peaks survive: every peak of a made record, and of every filesystem in it, is the maximum over the
      current and peak values of all measured records it goes back to. */
  lemma {:induction false} RecordPeaks(t: Origin, v: View, f: Field)
    requires Genuine(t) && t.Made? && Has(Shape(v), f) && !f.Plain?
    ensures At(Look(t.stats, v), f).max == MaxOf(Tops(Looks(Sources(t), v), f))
  {
    TreeIs(t, v);
    hide Genuine, Look, Looks, Sources, At, Has, MaxOf, Tops;
    Hierarchy.PeaksSurvive(TreeOf(t, v), Shape(v), f);
  }

  /** In any tree of averages whose sums fit in 64 bits, a byte rate is at most the exact mean of means over its
      parts, all the way down to the measured records, and less than the number of tiers below it. */
  lemma {:induction false} RecordByteRates(t: Origin, v: View, f: Field)
    requires Genuine(t) && Has(Shape(v), f) && f.Bytes? && SumOf(Now(Looks(Sources(t), v), f)) < WORD
    ensures
      var tree := TreeOf(t, v);
      Hierarchy.JustBelow(At(Look(t.stats, v), f).now, Hierarchy.MeanOfMeans(tree, f), Hierarchy.Height(tree))
  {
    TreeIs(t, v);
    hide Genuine, Look, Sources, At, Has, SumOf, Now;
    Hierarchy.TruncationAnyGroups(TreeOf(t, v), Shape(v), f);
  }

  /** With groups of uniform size per tier that mean is the one over the measured records. */
  lemma {:induction false} RecordByteRatesUniform(t: Origin, v: View, sizes: seq<nat>, f: Field)
    requires Genuine(t) && Has(Shape(v), f) && f.Bytes? && Levels(t, sizes)
    requires SumOf(Now(Looks(Sources(t), v), f)) < WORD
    ensures
      var total := SumOf(Now(Looks(Sources(t), v), f));
      |Sources(t)| > 0 && Hierarchy.Close(At(Look(t.stats, v), f).now, total, |Sources(t)|, |sizes|)
  {
    TreeIs(t, v);
    LevelsBalance(t, v, sizes);
    hide Genuine, Look, Sources, At, Has, SumOf, Now, Levels;
    Hierarchy.TruncationError(TreeOf(t, v), Shape(v), sizes, f);
  }

  /** A rounded gauge stays within half a hundredth per tier of the exact mean of means. */
  lemma {:induction false} RecordGauges(t: Origin, v: View, f: Field)
    requires Genuine(t) && Has(Shape(v), f) && !f.Bytes?
    ensures
      var tree := TreeOf(t, v);
      Hierarchy.Near(At(Look(t.stats, v), f).now, Hierarchy.MeanOfMeans(tree, f), Hierarchy.Height(tree))
  {
    TreeIs(t, v);
    hide Genuine, Look, Sources, At, Has, SumOf, Now;
    Hierarchy.RoundingAnyGroups(TreeOf(t, v), Shape(v), f);
  }

  lemma {:induction false} RecordGaugesUniform(t: Origin, v: View, sizes: seq<nat>, f: Field)
    requires Genuine(t) && Has(Shape(v), f) && !f.Bytes? && Levels(t, sizes)
    ensures
      var root, total, n := At(Look(t.stats, v), f).now, SumOf(Now(Looks(Sources(t), v), f)), |Sources(t)|;
      n > 0 && -(|sizes| * n) <= 2 * (total - root * n) <= |sizes| * n
  {
    TreeIs(t, v);
    LevelsBalance(t, v, sizes);
    hide Genuine, Look, Sources, At, Has, SumOf, Now, Levels;
    Hierarchy.RoundingError(TreeOf(t, v), Shape(v), sizes, f);
  }

  /** All records of a tier have the same number of parts. */
  predicate Levels(t: Origin, sizes: seq<nat>) {
    if sizes == [] then t.Measured?
    else t.Made? && |t.parts| == sizes[0] > 0 && forall i | 0 <= i < |t.parts| :: Levels(t.parts[i], sizes[1..])
  }

  lemma {:induction false} LevelsBalance(t: Origin, v: View, sizes: seq<nat>)
    requires Levels(t, sizes)
    ensures Hierarchy.Balanced(TreeOf(t, v), sizes)
    decreases t
  {
    if t.Made? {
      forall i | 0 <= i < |t.parts| ensures Hierarchy.Balanced(TreeOf(t.parts[i], v), sizes[1..]) {
        LevelsBalance(t.parts[i], v, sizes[1..]);
      }
    }
  }

  // ---------------------------------------------------------------- interfaces and battery

  /** The other truncated means: the rates of one interface, and the battery level. */
  datatype Level = Up(nic: string) | Down(nic: string) | Battery

  function LevelOf(s: Stats, l: Level): nat {
    match l
    case Up(k) => Get(s.nics, k, NO_NIC).up
    case Down(k) => Get(s.nics, k, NO_NIC).down
    case Battery => s.battery
  }

  function LevelsOf(rs: seq<Stats>, l: Level): seq<nat> {
    seq(|rs|, i requires 0 <= i < |rs| => LevelOf(rs[i], l))
  }

  /** The battery's sum is not kept in 64 bits; no sum of bytes over fewer than 2^56 records reaches that. */
  predicate Fits(n: nat, l: Level) { l.Battery? ==> n * 255 < WORD }

  lemma {:induction false} AveragedLevel(rs: seq<Stats>, avg: Stats, l: Level)
    requires rs != [] && Averaged(rs, avg) && Fits(|rs|, l)
    ensures LevelOf(avg, l) == SumOf(LevelsOf(rs, l)) % WORD / |rs|
  {
    match l
    case Battery =>
      assert LevelsOf(rs, l) == Batteries(rs);
      SumBounded(Batteries(rs), 255);
      SmallMod(SumOf(Batteries(rs)));
    case Up(k) =>
      AveragedNic(rs, avg, k);
      assert LevelsOf(rs, l) == Ups(Column(Nics(rs), k, NO_NIC));
    case Down(k) =>
      AveragedNic(rs, avg, k);
      assert LevelsOf(rs, l) == Downs(Column(Nics(rs), k, NO_NIC));
  }

  lemma {:induction false} AveragedNic(rs: seq<Stats>, avg: Stats, k: string)
    requires rs != [] && Averaged(rs, avg)
    ensures
      var c, nic := Column(Nics(rs), k, NO_NIC), Get(avg.nics, k, NO_NIC);
      nic.up == SumOf(Ups(c)) % WORD / |rs| && nic.down == SumOf(Downs(c)) % WORD / |rs|
  {
    NicTotals(Nics(rs), k);
    DivBelow(0, |rs|, 0);
    hide MergeAll, SumOf, Ups, Downs, Column, Nics, Average, RaggedAverage, TemperaturesAveraged, FsDivided, Fold;
  }

  const LEVEL_SHAPE: Block := Zero(0, 0, 1)
  const LEVEL: Field := Bytes(0)

  function LevelBlock(s: Stats, l: Level): (b: Block)
    ensures SameShape(b, LEVEL_SHAPE) && At(b, LEVEL).now == LevelOf(s, l)
  {
    Block([], [], [Peak(LevelOf(s, l), 0)])
  }

  function LevelTree(t: Origin, l: Level): Hierarchy.Tree
    decreases t, 1
  {
    if t.Measured? then Hierarchy.Leaf(LevelBlock(t.stats, l)) else Hierarchy.Node(LevelTrees(t.parts, l))
  }

  function LevelTrees(ts: seq<Origin>, l: Level): (trees: seq<Hierarchy.Tree>)
    ensures |trees| == |ts| && forall i | 0 <= i < |ts| :: trees[i] == LevelTree(ts[i], l)
    decreases ts, 0
  {
    if ts == [] then [] else [LevelTree(ts[0], l)] + LevelTrees(ts[1..], l)
  }

  /** The root of a record's hierarchy has the level of the record. */
  predicate RootAgrees(t: Origin, l: Level) {
    && Hierarchy.WellShaped(LevelTree(t, l), LEVEL_SHAPE)
    && At(Hierarchy.Roll(LevelTree(t, l), LEVEL_SHAPE), LEVEL).now == LevelOf(t.stats, l)
  }

  /** The hierarchy of one level: its root and its leaves have the levels of the records. */
  lemma {:induction false} LevelTreeIs(t: Origin, l: Level)
    requires Genuine(t) && Fits(|Sources(t)|, l)
    ensures RootAgrees(t, l)
    ensures Now(Hierarchy.Leaves(LevelTree(t, l)), LEVEL) == LevelsOf(Sources(t), l) && Sources(t) != []
    decreases t, 1
  {
    hide Averaged, Average, LevelBlock, LevelOf, SumOf, At, Fits;
    if t.Measured? {
      assert LevelsOf([t.stats], l) == [LevelOf(t.stats, l)];
      assert Now([LevelBlock(t.stats, l)], LEVEL) == [LevelOf(t.stats, l)];
    } else {
      LevelTreesAre(t.parts, l);
      FitsLess(|t.parts|, |Sources(t)|, l);
      MadeLevel(t.stats, t.parts, l);
      hide Now, LevelsOf, Hierarchy.Roll;
    }
  }

  lemma FitsLess(m: nat, n: nat, l: Level)
    requires m <= n && Fits(n, l)
    ensures Fits(m, l)
  {}

  lemma {:induction false} MadeLevel(s: Stats, ts: seq<Origin>, l: Level)
    requires ts != [] && Averaged(StatsOf(ts), s) && Fits(|ts|, l)
    requires forall i | 0 <= i < |ts| :: RootAgrees(ts[i], l)
    ensures Hierarchy.WellShaped(Hierarchy.Node(LevelTrees(ts, l)), LEVEL_SHAPE)
    ensures At(Hierarchy.Roll(Hierarchy.Node(LevelTrees(ts, l)), LEVEL_SHAPE), LEVEL).now == LevelOf(s, l)
  {
    hide Averaged, Average, LevelOf, LevelTree, SumOf, At, Fits, Hierarchy.Roll;
    AveragedLevel(StatsOf(ts), s, l);
    assert Now(Hierarchy.Rolls(LevelTrees(ts, l), LEVEL_SHAPE), LEVEL) == LevelsOf(StatsOf(ts), l);
    hide Now, LevelsOf;
    Hierarchy.NodeColumn(LevelTrees(ts, l), LEVEL_SHAPE, LEVEL);
  }

  lemma {:induction false} LevelTreesAre(ts: seq<Origin>, l: Level)
    requires (forall i | 0 <= i < |ts| :: Genuine(ts[i])) && Fits(|SourcesOf(ts)|, l)
    ensures forall i | 0 <= i < |ts| :: RootAgrees(ts[i], l)
    ensures Now(Hierarchy.LeavesOf(LevelTrees(ts, l)), LEVEL) == LevelsOf(SourcesOf(ts), l) && |SourcesOf(ts)| >= |ts|
    decreases ts, 0
  {
    if ts != [] {
      hide Genuine, RootAgrees, LevelTree, Now, LevelsOf, Fits, Hierarchy.Leaves, Sources;
      FitsLess(|Sources(ts[0])|, |SourcesOf(ts)|, l);
      FitsLess(|SourcesOf(ts[1..])|, |SourcesOf(ts)|, l);
      LevelTreeIs(ts[0], l);
      LevelTreesAre(ts[1..], l);
      LevelsConcat(Sources(ts[0]), SourcesOf(ts[1..]), l);
      ColumnsConcat(Hierarchy.Leaves(LevelTree(ts[0], l)), Hierarchy.LeavesOf(LevelTrees(ts[1..], l)), LEVEL);
      assert forall i | 1 <= i < |ts| :: ts[i] == ts[1..][i - 1];
    }
  }

  lemma LevelsConcat(rs: seq<Stats>, ss: seq<Stats>, l: Level)
    ensures LevelsOf(rs + ss, l) == LevelsOf(rs, l) + LevelsOf(ss, l)
  {
    hide LevelOf;
  }

  /** The rates of every interface, and the battery level, of a record: at most the exact mean of means down to
      the measured records, and less than the number of tiers below it. */
  lemma {:induction false} RecordLevels(t: Origin, l: Level)
    requires Genuine(t) && Fits(|Sources(t)|, l) && SumOf(LevelsOf(Sources(t), l)) < WORD
    ensures
      var tree := LevelTree(t, l);
      Hierarchy.JustBelow(LevelOf(t.stats, l), Hierarchy.MeanOfMeans(tree, LEVEL), Hierarchy.Height(tree))
  {
    LevelTreeIs(t, l);
    hide Genuine, LevelOf, Sources, At, SumOf, Now;
    Hierarchy.TruncationAnyGroups(LevelTree(t, l), LEVEL_SHAPE, LEVEL);
  }

  /** With groups of uniform size per tier that mean is the one over the measured records. */
  lemma {:induction false} RecordLevelsUniform(t: Origin, l: Level, sizes: seq<nat>)
    requires Genuine(t) && Fits(|Sources(t)|, l) && SumOf(LevelsOf(Sources(t), l)) < WORD && Levels(t, sizes)
    ensures |Sources(t)| > 0
    ensures Hierarchy.Close(LevelOf(t.stats, l), SumOf(LevelsOf(Sources(t), l)), |Sources(t)|, |sizes|)
  {
    LevelTreeIs(t, l);
    LevelTreeBalances(t, l, sizes);
    hide Genuine, LevelOf, Sources, At, SumOf, Now, Levels;
    Hierarchy.TruncationError(LevelTree(t, l), LEVEL_SHAPE, sizes, LEVEL);
  }

  lemma {:induction false} LevelTreeBalances(t: Origin, l: Level, sizes: seq<nat>)
    requires Levels(t, sizes)
    ensures Hierarchy.Balanced(LevelTree(t, l), sizes)
    decreases t
  {
    if t.Made? {
      forall i | 0 <= i < |t.parts| ensures Hierarchy.Balanced(LevelTree(t.parts[i], l), sizes[1..]) {
        LevelTreeBalances(t.parts[i], l, sizes[1..]);
      }
    }
  }
}
