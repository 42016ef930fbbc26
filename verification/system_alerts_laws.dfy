/** What the threshold decisions promise, and where they fall short. */
module SystemAlertsLaws {
  import opened Wrappers
  import opened Reals
  import opened AlertData
  import opened SystemAlerts

  predicate Sorted(rows: seq<Record>) {
    forall i, j | 0 <= i < j < |rows| :: rows[i].created <= rows[j].created
  }

  // ---------------------------------------------------------------- windows

  lemma {:induction false} WindowIs(rows: seq<Record>, start: int)
    ensures forall r :: r in Window(rows, start) <==> r in rows && InWindow(r, start)
    ensures Readable(rows) ==> Readable(Window(rows, start))
  {
    if rows != [] {
      var init := rows[..|rows| - 1];
      WindowIs(init, start);
      assert rows == init + [rows[|rows| - 1]];
      assert Readable(rows) ==> Readable(init) && rows[|rows| - 1].stats.Some?;
      hide InWindow;
    }
  }

  /** The running sum of the interleaved pass is the sum over the window. */
  lemma {:induction false} WindowSumIsSum(rows: seq<Record>, start: int, k: Kind)
    requires Readable(rows) && !k.Disk?
    ensures Readable(Window(rows, start)) && WindowSum(rows, start, k) == Sum(Window(rows, start), k)
  {
    WindowIs(rows, start);
    if rows != [] {
      var init, last := rows[..|rows| - 1], rows[|rows| - 1];
      WindowSumIsSum(init, start, k);
      var w := Window(init, start);
      assert Window(rows, start) == if InWindow(last, start) then w + [last] else w;
      hide InWindow, Metric, Window;
      SumAppend(w, last, k);
    }
  }

  lemma {:induction false} SumAppend(rows: seq<Record>, r: Record, k: Kind)
    requires Readable(rows) && r.stats.Some? && !k.Disk?
    ensures Readable(rows + [r]) && Sum(rows + [r], k) == Sum(rows, k) + Metric(r.stats.value, k)
  {
    assert (rows + [r])[..|rows|] == rows;
    hide Metric;
  }

  ghost function Mean(window: seq<Record>, k: Kind): real
    requires Readable(window) && window != [] && !k.Disk?
  {
    Sum(window, k) / |window| as real
  }

  /** Up to 255 samples: an alert flips exactly when its window holds enough samples and their mean
      crosses the threshold against its state, and the value reported is that mean. */
  lemma DecisionIff(w: Waiting, rows: seq<Record>)
    requires Readable(rows) && w.min > 1 && !w.kind.Disk? && |Window(rows, w.start)| <= 255
    ensures Readable(Window(rows, w.start))
    ensures
      var window := Window(rows, w.start);
      Decision(w, rows) ==
      if window != [] && 6 * |window| >= 5 * w.min && Crossing(w.alert, Mean(window, w.kind))
      then [Notice(w.alert, !w.alert.triggered, Mean(window, w.kind))] else []
  {
    WindowSumIsSum(rows, w.start, w.kind);
    assert Count(rows, w.start) == |Window(rows, w.start)|;
    hide Window, WindowSum, Sum, Count, Crossing, EnoughSamples;
    Enough(|Window(rows, w.start)|, w.min);
  }

  lemma Enough(count: nat, min: nat)
    ensures EnoughSamples(count, min) <==> 6 * count >= 5 * min
  {}

  // ---------------------------------------------------------------- one-sided samples

  predicate AllAtMost(rows: seq<Record>, k: Kind, t: real)
    requires Readable(rows) && !k.Disk?
  {
    forall i | 0 <= i < |rows| :: Metric(rows[i].stats.value, k) <= t
  }

  predicate AllAbove(rows: seq<Record>, k: Kind, t: real)
    requires Readable(rows) && !k.Disk?
  {
    forall i | 0 <= i < |rows| :: Metric(rows[i].stats.value, k) > t
  }

  lemma {:induction false} SumAtMost(rows: seq<Record>, k: Kind, t: real)
    requires Readable(rows) && !k.Disk? && AllAtMost(rows, k, t)
    ensures Sum(rows, k) <= Times(t, |rows| as real)
  {
    hide Times, Metric;
    if rows == [] {
      TimesNone(t);
    } else {
      SumAtMost(rows[..|rows| - 1], k, t);
      OneMoreTimes(t, |rows| - 1);
    }
  }

  lemma {:induction false} SumAbove(rows: seq<Record>, k: Kind, t: real)
    requires Readable(rows) && !k.Disk? && AllAbove(rows, k, t)
    ensures Sum(rows, k) >= Times(t, |rows| as real) && (rows != [] ==> Sum(rows, k) > Times(t, |rows| as real))
  {
    hide Times, Metric;
    if rows == [] {
      TimesNone(t);
    } else {
      SumAbove(rows[..|rows| - 1], k, t);
      OneMoreTimes(t, |rows| - 1);
    }
  }

  lemma TimesNone(t: real)
    ensures Times(t, 0.0) == 0.0
  {}

  lemma OneMoreTimes(t: real, n: nat)
    ensures Times(t, (n + 1) as real) == Times(t, n as real) + t
  {}

  /** Times is monotone in the number of summands for a non-negative bound. */
  lemma FewerTimes(t: real, c: nat, n: nat)
    requires c <= n && t >= 0.0
    ensures Times(t, c as real) <= Times(t, n as real)
    ensures c < n && t > 0.0 ==> Times(t, c as real) < Times(t, n as real)
  {
    if c < n && t > 0.0 {
      Grows(c as real, n as real, t);
    }
  }

  /** What decides is the sum over the window against the threshold times the 8-bit count. */
  lemma FlipsBySum(w: Waiting, rows: seq<Record>)
    requires Readable(rows) && w.min > 1 && !w.kind.Disk?
    ensures Readable(Window(rows, w.start))
    ensures
      var (window, count) := (Window(rows, w.start), |Window(rows, w.start)| % 256);
      Decision(w, rows) != [] <==>
        && 6 * count >= 5 * w.min
        && w.alert.triggered != (Sum(window, w.kind) > Times(w.alert.value, count as real))
  {
    WindowSumIsSum(rows, w.start, w.kind);
    var count := Count(rows, w.start);
    hide Window, WindowSum, Sum, Times;
    if count > 0 {
      QuotientCompares(Value(w, rows), count as real, w.alert.value);
    }
  }

  predicate OnOwnSide(w: Waiting, r: Record)
    requires !w.kind.Disk?
  {
    r.stats.Some? && (Metric(r.stats.value, w.kind) > w.alert.value) == w.alert.triggered
  }

  /** All samples in the window are on the alert's own side of the threshold, and none is negative. */
  predicate OneSided(w: Waiting, rows: seq<Record>)
    requires !w.kind.Disk?
  {
    Readable(rows)
    && forall i | 0 <= i < |rows| && InWindow(rows[i], w.start) ::
         OnOwnSide(w, rows[i]) && Metric(rows[i].stats.value, w.kind) >= 0.0
  }

  predicate SafeCount(w: Waiting, n: nat) {
    w.alert.triggered || w.alert.value <= 0.0 || n <= 255 || !EnoughSamples(n % 256, w.min)
  }

  /** Up to 255 samples all on the alert's own side of the threshold never flip it, whatever their sign. */
  lemma {:induction false} OneSidedSamplesKeepTheState(w: Waiting, rows: seq<Record>)
    requires Readable(rows) && w.min > 1 && !w.kind.Disk? && |Window(rows, w.start)| <= 255
    requires forall i | 0 <= i < |rows| && InWindow(rows[i], w.start) :: OnOwnSide(w, rows[i])
    ensures Decision(w, rows) == []
  {
    WindowIs(rows, w.start);
    WindowOwnSide(w, rows);
    FlipsBySum(w, rows);
    hide InWindow, Metric, Decision, Window, Sum, Times, OnOwnSide;
    OwnSideSums(w, Window(rows, w.start));
  }

  lemma WindowOwnSide(w: Waiting, rows: seq<Record>)
    requires !w.kind.Disk? && forall i | 0 <= i < |rows| && InWindow(rows[i], w.start) :: OnOwnSide(w, rows[i])
    ensures forall i | 0 <= i < |Window(rows, w.start)| :: OnOwnSide(w, Window(rows, w.start)[i])
  {
    WindowIs(rows, w.start);
    var window := Window(rows, w.start);
    hide InWindow, OnOwnSide, Window;
    forall i | 0 <= i < |window| ensures OnOwnSide(w, window[i]) {
      assert window[i] in window;
      var j :| 0 <= j < |rows| && rows[j] == window[i];
    }
  }

  lemma OwnSideSums(w: Waiting, window: seq<Record>)
    requires !w.kind.Disk? && Readable(window) && forall i | 0 <= i < |window| :: OnOwnSide(w, window[i])
    ensures w.alert.triggered ==>
              Sum(window, w.kind) >= Times(w.alert.value, |window| as real)
              && (window != [] ==> Sum(window, w.kind) > Times(w.alert.value, |window| as real))
    ensures !w.alert.triggered ==> Sum(window, w.kind) <= Times(w.alert.value, |window| as real)
  {
    hide Metric, Sum, Times;
    if w.alert.triggered {
      SumAbove(window, w.kind, w.alert.value);
    } else {
      SumAtMost(window, w.kind, w.alert.value);
    }
  }

  /** Non-negative one-sided samples do not flip an alert as long as their number is safe. */
  lemma {:induction false} SafeCountKeepsTheState(w: Waiting, rows: seq<Record>)
    requires w.min > 1 && !w.kind.Disk? && OneSided(w, rows) && SafeCount(w, |Window(rows, w.start)|)
    ensures Decision(w, rows) == []
  {
    var window := Window(rows, w.start);
    hide InWindow, Metric, Decision, Window, Sum, Times, OnOwnSide, SafeCount;
    WindowIs(rows, w.start);
    WindowOwnSide(w, rows);
    WindowNotNegative(w, rows);
    FlipsBySum(w, rows);
    OwnSideSums(w, window);
    SumNotNegative(window, w.kind);
    if window != [] {
      KeptBySum(w, |window|, Sum(window, w.kind));
    }
  }

  lemma WindowNotNegative(w: Waiting, rows: seq<Record>)
    requires !w.kind.Disk? && OneSided(w, rows) && Readable(Window(rows, w.start))
    ensures forall i | 0 <= i < |Window(rows, w.start)| :: Metric(Window(rows, w.start)[i].stats.value, w.kind) >= 0.0
  {
    WindowIs(rows, w.start);
    var window := Window(rows, w.start);
    hide InWindow, Metric, Window, OnOwnSide;
    forall i | 0 <= i < |window| ensures Metric(window[i].stats.value, w.kind) >= 0.0 {
      assert window[i] in window;
      var j :| 0 <= j < |rows| && rows[j] == window[i];
    }
  }

  lemma {:induction false} SumNotNegative(rows: seq<Record>, k: Kind)
    requires Readable(rows) && !k.Disk? && forall i | 0 <= i < |rows| :: Metric(rows[i].stats.value, k) >= 0.0
    ensures Sum(rows, k) >= 0.0
    ensures rows != [] && AllAtMost(rows, k, 0.0) ==> Sum(rows, k) <= 0.0
  {
    hide Metric;
    if rows != [] {
      SumNotNegative(rows[..|rows| - 1], k);
    }
  }

  lemma KeptBySum(w: Waiting, n: nat, sum: real)
    requires n > 0 && w.min > 1 && SafeCount(w, n) && sum >= 0.0
    requires w.alert.triggered ==> sum > Times(w.alert.value, n as real)
    requires !w.alert.triggered ==> sum <= Times(w.alert.value, n as real)
    ensures 6 * (n % 256) >= 5 * w.min ==> (sum > Times(w.alert.value, (n % 256) as real)) == w.alert.triggered
  {
    var t, c := w.alert.value, n % 256;
    if n > 255 && 6 * c >= 5 * w.min {
      if t >= 0.0 {
        FewerTimes(t, c, n);
        if t == 0.0 { TimesZero(c); TimesZero(n); }
      } else {
        NegativeTimes(t, c);
        NegativeTimes(t, n);
      }
    }
  }

  lemma TimesZero(n: nat)
    ensures Times(0.0, n as real) == 0.0
  {}

  lemma NegativeTimes(t: real, n: nat)
    requires t < 0.0 && n > 0
    ensures Times(t, n as real) < 0.0
  {
    Grows(t, 0.0, n as real);
  }

  function Tick(from: int, every: nat, i: nat, v: real): Record {
    Record(from + i * every, Some(Sample(v, v, v, map[])))
  }

  /** n records with this value, one every so many milliseconds. */
  function Steady(n: nat, from: int, every: nat, v: real): seq<Record> {
    if n == 0 then [] else Steady(n - 1, from, every, v) + [Tick(from, every, n - 1, v)]
  }

  lemma {:induction false} SteadyAt(n: nat, from: int, every: nat, v: real)
    ensures
      var rows := Steady(n, from, every, v);
      |rows| == n && (forall i | 0 <= i < n :: rows[i] == Tick(from, every, i, v)) && Readable(rows)
  {
    if n > 0 {
      SteadyAt(n - 1, from, every, v);
      assert Tick(from, every, n - 1, v).stats.Some?;
      hide Tick;
    }
  }

  lemma {:induction false} SteadyWindow(n: nat, from: int, every: nat, v: real, start: int)
    requires InWindow(Record(from, None), start)
    ensures Window(Steady(n, from, every, v), start) == Steady(n, from, every, v)
  {
    if n > 0 {
      SteadyWindow(n - 1, from, every, v, start);
      TickIs(from, every, n - 1, v, start);
      SteadySplit(n, from, every, v);
      hide Tick, InWindow, Steady;
    }
  }

  lemma SteadySplit(n: nat, from: int, every: nat, v: real)
    requires n > 0
    ensures
      var rows := Steady(n, from, every, v);
      |rows| == n && rows[..n - 1] == Steady(n - 1, from, every, v) && rows[n - 1] == Tick(from, every, n - 1, v)
      && rows == rows[..n - 1] + [rows[n - 1]]
  {
    SteadyAt(n, from, every, v);
    SteadyAt(n - 1, from, every, v);
    hide Tick;
  }

  lemma {:induction false} SteadySum(n: nat, from: int, every: nat, v: real, k: Kind)
    requires !k.Disk?
    ensures Readable(Steady(n, from, every, v)) && Sum(Steady(n, from, every, v), k) == Times(v, n as real)
  {
    SteadyAt(n, from, every, v);
    hide Times, Steady;
    if n == 0 {
      TimesNone(v);
    } else {
      SteadySum(n - 1, from, every, v, k);
      SteadySplit(n, from, every, v);
      assert Tick(from, every, n - 1, v).stats == Some(Sample(v, v, v, map[]));
      hide Tick;
      OneMoreTimes(v, n - 1);
    }
  }

  lemma SteadyIs(n: nat, from: int, every: nat, v: real, k: Kind, start: int)
    requires !k.Disk? && InWindow(Record(from, None), start)
    ensures
      var rows := Steady(n, from, every, v);
      && |rows| == n && (forall i | 0 <= i < n :: rows[i] == Tick(from, every, i, v))
      && Readable(rows) && Window(rows, start) == rows && Sum(rows, k) == Times(v, n as real)
  {
    hide Times, Tick, InWindow, Steady, Window, Sum;
    SteadyAt(n, from, every, v);
    SteadyWindow(n, from, every, v, start);
    SteadySum(n, from, every, v, k);
  }

  lemma TickIs(from: int, every: nat, i: nat, v: real, start: int)
    requires InWindow(Record(from, None), start)
    ensures InWindow(Tick(from, every, i, v), start)
  {
    NotNegative(i, every);
  }

  lemma NotNegative(a: nat, b: nat)
    ensures a * b >= 0
  {}

  /** The wrong flip: n copies of the threshold itself trigger an untriggered alert when n is not safe. */
  lemma {:induction false} UnsafeCountFlips(w: Waiting, n: nat, every: nat)
    requires w.min > 1 && !w.kind.Disk? && !SafeCount(w, n)
    ensures
      var rows := Steady(n, w.start + 10 * SECOND, every, w.alert.value);
      OneSided(w, rows) && |Window(rows, w.start)| == n && Decision(w, rows) != []
  {
    var rows := Steady(n, w.start + 10 * SECOND, every, w.alert.value);
    SteadyIs(n, w.start + 10 * SECOND, every, w.alert.value, w.kind, w.start);
    hide Window, Sum, Decision, Times, Steady;
    FewerTimes(w.alert.value, n % 256, n);
    FlipsBySum(w, rows);
  }

  /** Exactly when one-sided samples are harmless: no table with n non-negative samples in the window, all on
      the alert's own side of the threshold, flips it if and only if the alert is triggered, its threshold
      is not positive, n is at most 255, or the 8-bit count of n is too small to decide anything. */
  lemma {:induction false} OneSidedSafeIff(w: Waiting, n: nat)
    requires w.min > 1 && !w.kind.Disk?
    ensures
      (forall rows | OneSided(w, rows) && |Window(rows, w.start)| == n :: Decision(w, rows) == []) <==> SafeCount(w, n)
  {
    hide Decision, Window, SafeCount;
    if SafeCount(w, n) {
      forall rows | OneSided(w, rows) && |Window(rows, w.start)| == n ensures Decision(w, rows) == [] {
        SafeCountKeepsTheState(w, rows);
      }
    } else {
      UnsafeCountFlips(w, n, 0);
    }
  }

  lemma WrappedMean(sum: real, n: nat)
    requires n % 256 > 0
    ensures sum / (n % 256) as real == sum / n as real <==> n <= 255 || sum == 0.0
  {
    var c := n % 256;
    var p := sum / c as real;
    if n > 255 {
      TimesOver(sum, c as real);
      TimesOver(sum, n as real);
      if p > 0.0 { Grows(c as real, n as real, p); }
      if p < 0.0 { Grows(c as real, n as real, -p); }
    }
  }

  /** The reported value is the true mean of the window if and only if no more than 255 samples were
      counted, or they sum to zero. */
  lemma MeanIsTrueIff(w: Waiting, rows: seq<Record>)
    requires Readable(rows) && !w.kind.Disk? && Count(rows, w.start) > 0
    ensures Readable(Window(rows, w.start)) && Window(rows, w.start) != []
    ensures
      var window := Window(rows, w.start);
      Value(w, rows) / Count(rows, w.start) as real == Mean(window, w.kind)
      <==> |window| <= 255 || Sum(window, w.kind) == 0.0
  {
    WindowSumIsSum(rows, w.start, w.kind);
    WrappedMean(Sum(Window(rows, w.start), w.kind), |Window(rows, w.start)|);
    hide Window, WindowSum, Sum;
  }

  // ---------------------------------------------------------------- which alerts are evaluated

  lemma {:induction false} SinceIs(rows: seq<Record>, time: int)
    ensures forall r :: r in Since(rows, time) <==> r in rows && r.created > time
    ensures Readable(rows) ==> Readable(Since(rows, time))
  {
    if rows != [] {
      var init := rows[..|rows| - 1];
      SinceIs(init, time);
      assert rows == init + [rows[|rows| - 1]];
      assert Readable(rows) ==> Readable(init) && rows[|rows| - 1].stats.Some?;
    }
  }

  lemma {:induction false} SinceIsSorted(rows: seq<Record>, time: int)
    requires Sorted(rows)
    ensures Sorted(Since(rows, time))
  {
    if rows != [] {
      var init, last := rows[..|rows| - 1], rows[|rows| - 1];
      SinceIsSorted(init, time);
      SinceIs(init, time);
      forall r | r in Since(init, time) ensures r.created <= last.created {
        var i :| 0 <= i < |init| && init[i] == r;
        assert rows[i] == r;
      }
    }
  }

  lemma {:induction false} OldestIsBelow(ws: seq<Waiting>, now: int)
    ensures forall i | 0 <= i < |ws| :: Oldest(ws, now) <= ws[i].start
    ensures Oldest(ws, now) == now || exists i :: 0 <= i < |ws| && ws[i].start == Oldest(ws, now)
    ensures Oldest(ws, now) <= now
  {
    if ws != [] {
      OldestIsBelow(ws[..|ws| - 1], now);
    }
  }

  /** The query never cuts off a window: an alert's samples are those of the whole table. */
  lemma {:induction false} WindowOfSelected(rows: seq<Record>, time: int, start: int)
    requires time < start
    ensures Window(Since(rows, time), start) == Window(rows, start)
  {
    if rows != [] {
      var init, last := rows[..|rows| - 1], rows[|rows| - 1];
      WindowOfSelected(init, time, start);
      var s := Since(init, time);
      assert (s + [last])[..|s|] == s;
      assert Since(rows, time) == if last.created > time then s + [last] else s;
      assert last.created <= time ==> !InWindow(last, start);
    }
  }

  predicate Gate(rows: seq<Record>, oldest: int, start: int) {
    exists i :: 0 <= i < |rows| && oldest - 90 * SECOND < rows[i].created < start
  }

  /** A waiting alert is evaluated exactly if some record was created before its window but no more than
      90 seconds before the earliest window of all waiting alerts. */
  lemma {:induction false} KeptIff(ws: seq<Waiting>, now: int, rows: seq<Record>, w: Waiting)
    requires w in ws && Sorted(rows)
    ensures
      var selected := Selected(rows, ws, now);
      (selected != [] && w in Kept(ws, selected[0].created)) <==> Gate(rows, Oldest(ws, now), w.start)
  {
    hide Since, Oldest, Sorted, Kept, Readable;
    var time := Oldest(ws, now) - 90 * SECOND;
    SinceIs(rows, time);
    SinceIsSorted(rows, time);
    var selected := Since(rows, time);
    if selected != [] {
      KeptAreWaiting(ws, selected[0].created);
      OldestFirst(selected);
    }
    if Gate(rows, Oldest(ws, now), w.start) {
      var i :| 0 <= i < |rows| && time < rows[i].created < w.start;
      assert rows[i] in selected;
    } else if selected != [] {
      assert selected[0] in rows;
      var i :| 0 <= i < |rows| && rows[i] == selected[0];
    }
  }

  lemma OldestFirst(rows: seq<Record>)
    requires Sorted(rows) && rows != []
    ensures rows[0] in rows && forall r | r in rows :: rows[0].created <= r.created
  {
    forall r | r in rows ensures rows[0].created <= r.created {
      var i :| 0 <= i < |rows| && rows[i] == r;
    }
  }

  /** So adding alerts never keeps an alert from being evaluated, but a longer one may let it in. */
  lemma {:induction false} MoreAlertsKeepMore(
    ws: seq<Waiting>, more: seq<Waiting>, now: int, rows: seq<Record>, w: Waiting)
    requires w in ws && Sorted(rows) && forall v | v in ws :: v in more
    requires Selected(rows, ws, now) != [] && w in Kept(ws, Selected(rows, ws, now)[0].created)
    ensures Selected(rows, more, now) != [] && w in Kept(more, Selected(rows, more, now)[0].created)
  {
    KeptIff(ws, now, rows, w);
    KeptIff(more, now, rows, w);
    OldestIsBelow(ws, now);
    OldestIsBelow(more, now);
    OldestFalls(ws, more, now);
    hide Selected, Kept, Oldest;
    var i :| 0 <= i < |rows| && Oldest(ws, now) - 90 * SECOND < rows[i].created < w.start;
    assert Oldest(more, now) - 90 * SECOND < rows[i].created < w.start;
  }

  lemma OldestFalls(ws: seq<Waiting>, more: seq<Waiting>, now: int)
    requires forall v | v in ws :: v in more
    ensures Oldest(more, now) <= Oldest(ws, now)
  {
    OldestIsBelow(ws, now);
    OldestIsBelow(more, now);
    hide Oldest;
    if Oldest(ws, now) != now {
      var i :| 0 <= i < |ws| && ws[i].start == Oldest(ws, now);
      assert ws[i] in ws;
      var j :| 0 <= j < |more| && more[j] == ws[i];
    }
  }

  // ---------------------------------------------------------------- the whole evaluation

  lemma {:induction false} ImmediateAre(alerts: seq<CachedAlert>, c: Current)
    ensures forall n | n in Immediate(alerts, c) ::
              && n.alert in alerts && Concerned(n.alert, c) && Minutes(n.alert) == 1
              && n.triggered == !n.alert.triggered && n.val == Now(c, KindOf(n.alert.name).value)
  {
    if alerts != [] {
      ImmediateAre(alerts[..|alerts| - 1], c);
      hide Concerned, KindOf, Now;
    }
  }

  predicate Longer(ws: seq<Waiting>) { forall i | 0 <= i < |ws| :: ws[i].min > 1 }

  lemma {:induction false} DecisionsAre(ws: seq<Waiting>, rows: seq<Record>, n: Notice)
    requires Readable(rows) && Longer(ws)
    ensures n in Decisions(ws, rows) <==> exists i :: 0 <= i < |ws| && n in Decision(ws[i], rows)
  {
    hide Decision, Readable;
    if ws != [] {
      var init, last := ws[..|ws| - 1], ws[|ws| - 1];
      DecisionsAre(init, rows, n);
      assert n in Decisions(ws, rows) <==> n in Decisions(init, rows) || n in Decision(last, rows);
      hide Decisions;
      assert forall i | 0 <= i < |init| :: init[i] == ws[i];
    }
  }

  lemma {:induction false} WaitingIff(alerts: seq<CachedAlert>, now: int, c: Current, a: CachedAlert)
    requires a in alerts && Concerned(a, c) && Minutes(a) > 1
    ensures WaitingFor(a, now) in WaitingOf(alerts, now, c)
  {
    if a != alerts[|alerts| - 1] {
      WaitingIff(alerts[..|alerts| - 1], now, c, a);
    }
  }

  function WaitingFor(a: CachedAlert, now: int): Waiting
    requires KindOf(a.name).Some?
  {
    Waiting(a, KindOf(a.name).value, now - Minutes(a) * MINUTE, Minutes(a))
  }

  /** No notice without cause: everything sent flips an alert whose current value crosses its threshold,
      and reports a value that crosses it too. */
  lemma {:induction false} NoticesHaveCause(
    alerts: seq<CachedAlert>, now: int, c: Current, rows: seq<Record>, n: Notice)
    requires n in Handled(alerts, now, c, rows)
    ensures n.alert in alerts && Concerned(n.alert, c)
    ensures n.triggered != n.alert.triggered && n.triggered == (n.val > n.alert.value)
  {
    ImmediateAre(alerts, c);
    if n !in Immediate(alerts, c) {
      var ws := WaitingOf(alerts, now, c);
      var selected := Selected(rows, ws, now);
      WaitingAreLong(alerts, now, c);
      KeptAreWaiting(ws, selected[0].created);
      var kept := Kept(ws, selected[0].created);
      hide WaitingOf, Kept, Selected, Immediate, Value, Count;
      DecisionsAre(kept, selected, n);
    }
  }

  /** A window that makes its alert flip, and what is sent then: its 8-bit count reaches five sixths of the
      minutes, and the sum divided by it crosses the threshold against the alert's state. Up to 255 samples
      the count is their number and the value their mean. */
  ghost predicate Demands(window: seq<Record>, w: Waiting, n: Notice)
    requires Readable(window) && !w.kind.Disk?
  {
    var count := |window| % 256;
    && count > 0 && 6 * count >= 5 * w.min && Crossing(w.alert, Sum(window, w.kind) / count as real)
    && n == Notice(w.alert, !w.alert.triggered, Sum(window, w.kind) / count as real)
  }

  /** The end-to-end rule for a CPU or memory alert of more than a minute whose current value crosses: it
      flips exactly if it is let in, the selected records can all be decoded, and its window, taken from the
      whole table, demands it. */
  lemma {:induction false} FiresIff(
    alerts: seq<CachedAlert>, now: int, c: Current, rows: seq<Record>, a: CachedAlert, n: Notice)
    requires a in alerts && Concerned(a, c) && Minutes(a) > 1 && KindOf(a.name) != Some(Disk) && n.alert == a
    requires Sorted(rows)
    ensures
      var (w, ws) := (WaitingFor(a, now), WaitingOf(alerts, now, c));
      n in Handled(alerts, now, c, rows) <==>
        && Gate(rows, Oldest(ws, now), w.start)
        && Readable(Selected(rows, ws, now))
        && Readable(Window(rows, w.start)) && Demands(Window(rows, w.start), w, n)
  {
    hide KindOf, WaitingOf, Window, Gate, Handled, Kept, Since, Oldest, Decision, Demands, Minutes, Sorted, Crossing,
      Now;
    var w, ws := WaitingFor(a, now), WaitingOf(alerts, now, c);
    WaitingIff(alerts, now, c, a);
    WaitingStartsLater(ws, now, w);
    hide WaitingFor, Concerned, Readable, InWindow;
    OnlyItsOwnDecision(alerts, now, c, rows, a, n);
    KeptIff(ws, now, rows, w);
    if Readable(Selected(rows, ws, now)) {
      DecisionOnSelected(w, rows, Oldest(ws, now) - 90 * SECOND, n);
    }
  }

  lemma WaitingStartsLater(ws: seq<Waiting>, now: int, w: Waiting)
    requires w in ws
    ensures Oldest(ws, now) - 90 * SECOND < w.start
  {
    OldestIsBelow(ws, now);
  }

  lemma DecisionOnSelected(w: Waiting, rows: seq<Record>, time: int, n: Notice)
    requires Readable(Since(rows, time)) && w.min > 1 && !w.kind.Disk? && time < w.start
    ensures Readable(Window(rows, w.start))
    ensures n in Decision(w, Since(rows, time)) <==> Demands(Window(rows, w.start), w, n)
  {
    WindowOfSelected(rows, time, w.start);
    WindowSumIsSum(Since(rows, time), w.start, w.kind);
    hide Since, Window, Crossing, Sum, WindowSum;
  }

  /** The notices of an alert are those of its own decision, if it is let in. */
  lemma {:induction false} OnlyItsOwnDecision(
    alerts: seq<CachedAlert>, now: int, c: Current, rows: seq<Record>, a: CachedAlert, n: Notice)
    requires a in alerts && Concerned(a, c) && Minutes(a) > 1 && n.alert == a
    ensures
      var ws := WaitingOf(alerts, now, c);
      var selected := Selected(rows, ws, now);
      n in Handled(alerts, now, c, rows) <==>
        && selected != [] && Readable(selected) && WaitingFor(a, now) in Kept(ws, selected[0].created)
        && n in Decision(WaitingFor(a, now), selected)
  {
    var ws := WaitingOf(alerts, now, c);
    var selected := Selected(rows, ws, now);
    ImmediateAre(alerts, c);
    WaitingAreLong(alerts, now, c);
    assert KindOf(a.name).Some? && WaitingFor(a, now).min > 1;
    hide WaitingOf, Kept, Immediate, Decision, Concerned, Since, Oldest, Readable, Selected;
    if selected != [] && Readable(selected) {
      var kept := Kept(ws, selected[0].created);
      KeptAreWaiting(ws, selected[0].created);
      forall i | 0 <= i < |kept|
        ensures KindOf(kept[i].alert.name).Some? && kept[i] == WaitingFor(kept[i].alert, now) && kept[i].min > 1
      {
        var j :| 0 <= j < |ws| && ws[j] == kept[i];
      }
      hide KindOf, WaitingFor;
      OwnDecision(kept, now, selected, a, n);
    }
  }

  lemma {:induction false} OwnDecision(ws: seq<Waiting>, now: int, rows: seq<Record>, a: CachedAlert, n: Notice)
    requires Readable(rows) && KindOf(a.name).Some? && n.alert == a && WaitingFor(a, now).min > 1
    requires forall i | 0 <= i < |ws| ::
      KindOf(ws[i].alert.name).Some? && ws[i] == WaitingFor(ws[i].alert, now) && ws[i].min > 1
    ensures n in Decisions(ws, rows) <==> WaitingFor(a, now) in ws && n in Decision(WaitingFor(a, now), rows)
  {
    DecisionsAre(ws, rows, n);
    hide WaitingFor, Value, Count, KindOf, Decisions;
    forall i | 0 <= i < |ws| && n in Decision(ws[i], rows) ensures ws[i].alert == a {}
    hide Decision;
  }

  // ---------------------------------------------------------------- a wrong flip, end to end

  lemma {:induction false} WindowConcat(a: seq<Record>, b: seq<Record>, start: int)
    ensures Window(a + b, start) == Window(a, start) + Window(b, start)
  {
    if b == [] {
      assert a + b == a;
    } else {
      assert (a + b)[..|a + b| - 1] == a + b[..|b| - 1];
      WindowConcat(a, b[..|b| - 1], start);
    }
  }

  /** A table of one system: one record just before the hour, then one every 11 seconds, all at 50 %. */
  function BusyHour(): seq<Record> {
    [Record(-3630 * SECOND, Some(Sample(50.0, 50.0, 50.0, map[])))] + Steady(310, -3590 * SECOND, 11 * SECOND, 50.0)
  }

  /** At time 0 an untriggered CPU alert at 60 % over 60 minutes, with the CPU at 61 % for the moment, goes off
      and reports 287 %, although none of the 310 samples of its hour is above 50 %. */
  lemma ManySamplesFlipWrongly()
    ensures
      var a := CachedAlert("a", "s", "u", "CPU", 60.0, false, 60);
      && Sorted(BusyHour()) && Readable(BusyHour())
      && (forall i | 0 <= i < |BusyHour()| :: BusyHour()[i].stats.value.cpu == 50.0)
      && Notice(a, true, 15500.0 / 54.0) in Handled([a], 0, Current(61.0, 0.0, 0.0), BusyHour())
  {
    var a, rows := CachedAlert("a", "s", "u", "CPU", 60.0, false, 60), BusyHour();
    assert KindOf(a.name) == Some(Cpu);
    hide KindOf, BusyHour, Handled;
    BusyWindow(rows);
    hide Window, Sum, Readable, Sorted, Gate;
    BusyHourFires(a, Current(61.0, 0.0, 0.0), rows, Notice(a, true, 15500.0 / 54.0));
  }

  lemma BusyHourFires(a: CachedAlert, c: Current, rows: seq<Record>, n: Notice)
    requires KindOf(a.name) == Some(Cpu) && a.min == 60 && a.value == 60.0 && !a.triggered && c.cpu > 60.0
    requires Sorted(rows) && Readable(rows) && Gate(rows, -3600 * SECOND, -3600 * SECOND)
    requires
      var window := Window(rows, -3600 * SECOND);
      |window| == 310 && Readable(window) && Sum(window, Cpu) == 15500.0
    requires n == Notice(a, true, 15500.0 / 54.0)
    ensures n in Handled([a], 0, c, rows)
  {
    hide KindOf, Window, Sum, Readable, Sorted, Gate, Handled, WaitingOf, Oldest;
    OneAlertWaits(a, c);
    SelectedReadable(rows, WaitingOf([a], 0, c));
    FiresIff([a], 0, c, rows, a, n);
  }

  lemma SelectedReadable(rows: seq<Record>, ws: seq<Waiting>)
    requires Readable(rows)
    ensures Readable(Selected(rows, ws, 0))
  {
    SinceIs(rows, Oldest(ws, 0) - 90 * SECOND);
  }

  lemma OneAlertWaits(a: CachedAlert, c: Current)
    requires Concerned(a, c) && Minutes(a) == 60
    ensures Oldest(WaitingOf([a], 0, c), 0) == -3600 * SECOND
  {
    assert [a][..0] == [];
    var ws := WaitingOf([a], 0, c);
    assert |ws| == 1 && ws[0].start == -3600 * SECOND;
    assert ws[..0] == [];
  }

  lemma BusyRows(rows: seq<Record>)
    requires rows == BusyHour()
    ensures |rows| == 311 && rows[0].created == -3630 * SECOND && rows[0].stats == Some(Sample(50.0, 50.0, 50.0, map[]))
    ensures rows[1..] == Steady(310, -3590 * SECOND, 11 * SECOND, 50.0)
    ensures forall i | 0 < i < 311 :: rows[i] == Tick(-3590 * SECOND, 11 * SECOND, i - 1, 50.0)
  {
    SteadyIs(310, -3590 * SECOND, 11 * SECOND, 50.0, Cpu, -3600 * SECOND);
    hide Steady, Tick, Window, Sum;
  }

  lemma BusyWindow(rows: seq<Record>)
    requires rows == BusyHour()
    ensures Sorted(rows) && Readable(rows) && forall i | 0 <= i < |rows| :: rows[i].stats.value.cpu == 50.0
    ensures Gate(rows, -3600 * SECOND, -3600 * SECOND)
    ensures
      var window := Window(rows, -3600 * SECOND);
      Readable(window) && |window| == 310 && Sum(window, Cpu) == 15500.0
  {
    BusyRows(rows);
    hide BusyHour, Window, Sum, Times, Steady;
    BusySum(rows);
  }

  lemma BusySum(rows: seq<Record>)
    requires |rows| == 311 && rows[0].created == -3630 * SECOND
    requires rows[1..] == Steady(310, -3590 * SECOND, 11 * SECOND, 50.0)
    ensures
      var window := Window(rows, -3600 * SECOND);
      Readable(window) && |window| == 310 && Sum(window, Cpu) == 15500.0
  {
    var first := rows[..1];
    SteadyIs(310, -3590 * SECOND, 11 * SECOND, 50.0, Cpu, -3600 * SECOND);
    assert first[..0] == [] && Window(first, -3600 * SECOND) == [];
    assert Times(50.0, 310.0) == 15500.0;
    hide Steady, Window, Sum, Times, Tick;
    WindowConcat(first, rows[1..], -3600 * SECOND);
    assert first + rows[1..] == rows && [] + rows[1..] == rows[1..];
  }

  // ---------------------------------------------------------------- disks

  /** The latest reading of a filesystem up to the end of the records, in the window or not. */
  function LastKnown(rows: seq<Record>, k: string): Option<Filesystem>
    requires Readable(rows)
  {
    if rows == [] then None
    else
      var fs := rows[|rows| - 1].stats.value.extraFs;
      if k in fs then Some(fs[k]) else LastKnown(rows[..|rows| - 1], k)
  }

  lemma {:induction false} CarriedIs(rows: seq<Record>, k: string)
    requires Readable(rows)
    ensures k in Carried(rows) <==> LastKnown(rows, k).Some?
    ensures k in Carried(rows) ==> Some(Carried(rows)[k]) == LastKnown(rows, k)
  {
    if rows != [] { CarriedIs(rows[..|rows| - 1], k); }
  }

  /** Usage of one filesystem summed over the window, each record counting the latest known reading. */
  function KnownUsage(rows: seq<Record>, start: int, k: string): real
    requires Readable(rows)
  {
    if rows == [] then 0.0
    else
      var (last, known) := (rows[|rows| - 1], LastKnown(rows, k));
      KnownUsage(rows[..|rows| - 1], start, k)
      + if !InWindow(last, start) then 0.0
        else (if k == "root" then last.stats.value.disk else 0.0)
             + if known.Some? && known.value.total > 0.0 then Percent(known.value) else 0.0
  }

  /** What the disk sums hold: a filesystem that records stopped listing keeps counting with its last
      reading, even one from before the window, and one named "root" is counted into the root disk. */
  lemma {:induction false} DiskSumsAre(rows: seq<Record>, start: int, k: string)
    requires Readable(rows)
    ensures At(DiskSums(rows, start), k) == KnownUsage(rows, start, k)
  {
    if rows != [] {
      var init, last := rows[..|rows| - 1], rows[|rows| - 1];
      DiskSumsAre(init, start, k);
      CarriedIs(rows, k);
      hide Percent, Carried, LastKnown, InWindow;
      if InWindow(last, start) {
        AddDiskAt(DiskSums(init, start), last.stats.value.disk, Carried(rows), k);
      }
    }
  }

  function UsageOf(fs: Option<Filesystem>): real {
    if fs.Some? && fs.value.total > 0.0 then Percent(fs.value) else 0.0
  }

  /** The same sum over only those records that list the filesystem themselves. */
  function ListedUsage(rows: seq<Record>, start: int, k: string): real
    requires Readable(rows)
  {
    if rows == [] then 0.0
    else
      var last := rows[|rows| - 1];
      ListedUsage(rows[..|rows| - 1], start, k)
      + if !InWindow(last, start) then 0.0
        else (if k == "root" then last.stats.value.disk else 0.0)
             + if k in last.stats.value.extraFs then UsageOf(Some(last.stats.value.extraFs[k])) else 0.0
  }

  /** No record in the window that lacks the filesystem comes after one that showed it in use. */
  predicate CarriesNothing(rows: seq<Record>, start: int, k: string)
    requires Readable(rows)
  {
    rows == [] ||
    (var (init, last) := (rows[..|rows| - 1], rows[|rows| - 1]);
     CarriesNothing(init, start, k)
     && (InWindow(last, start) && k !in last.stats.value.extraFs ==> UsageOf(LastKnown(init, k)) == 0.0))
  }

  predicate NothingNegative(rows: seq<Record>, k: string)
    requires Readable(rows)
  {
    forall i | 0 <= i < |rows| && k in rows[i].stats.value.extraFs :: rows[i].stats.value.extraFs[k].used >= 0.0
  }

  /** The carry-over only ever adds usage, and a filesystem's sum is that of the records that list it if and only
      if nothing is carried into the window. */
  lemma {:induction false} CarryOverIff(rows: seq<Record>, start: int, k: string)
    requires Readable(rows) && NothingNegative(rows, k)
    ensures At(DiskSums(rows, start), k) >= ListedUsage(rows, start, k)
    ensures At(DiskSums(rows, start), k) == ListedUsage(rows, start, k) <==> CarriesNothing(rows, start, k)
  {
    DiskSumsAre(rows, start, k);
    hide DiskSums, NothingNegative;
    CarriedUsage(rows, start, k);
  }

  lemma {:induction false} CarriedUsage(rows: seq<Record>, start: int, k: string)
    requires Readable(rows) && NothingNegative(rows, k)
    ensures KnownUsage(rows, start, k) >= ListedUsage(rows, start, k)
    ensures KnownUsage(rows, start, k) == ListedUsage(rows, start, k) <==> CarriesNothing(rows, start, k)
  {
    if rows != [] {
      CarriedUsage(rows[..|rows| - 1], start, k);
      KnownNotNegative(rows[..|rows| - 1], k);
      hide Percent, InWindow, NothingNegative;
    }
  }

  lemma {:induction false} KnownNotNegative(rows: seq<Record>, k: string)
    requires Readable(rows) && NothingNegative(rows, k)
    ensures UsageOf(LastKnown(rows, k)) >= 0.0
  {
    if rows != [] {
      KnownNotNegative(rows[..|rows| - 1], k);
      var fs := rows[|rows| - 1].stats.value.extraFs;
      if k in fs && fs[k].total > 0.0 { PercentNotNegative(fs[k]); }
      hide Percent;
    }
  }

  lemma PercentNotNegative(fs: Filesystem)
    requires fs.total > 0.0 && fs.used >= 0.0
    ensures Percent(fs) >= 0.0
  {
    QuotientCompares(fs.used, fs.total, 0.0);
    TimesNone(fs.total);
    assert Times(0.0, fs.total) == 0.0;
  }

  lemma AddDiskAt(sums: map<string, real>, disk: real, fs: map<string, Filesystem>, k: string)
    ensures At(AddDisk(sums, disk, fs), k) ==
            At(sums, k) + (if k == "root" then disk else 0.0) + if Mounted(fs, k) then Percent(fs[k]) else 0.0
  {
    hide Percent;
  }

  /** A disk alert's value bounds the mean usage of every filesystem, the root disk's included. */
  lemma {:induction false} DiskValueCoversAll(w: Waiting, rows: seq<Record>, k: string)
    requires Readable(rows) && w.kind.Disk?
    ensures Value(w, rows) >= KnownUsage(rows, w.start, k)
    ensures Value(w, rows) == 0.0 || exists j :: Value(w, rows) == KnownUsage(rows, w.start, j)
  {
    var sums := DiskSums(rows, w.start);
    DiskSumsAre(rows, w.start, k);
    hide DiskSums, KnownUsage;
    if Value(w, rows) != 0.0 {
      var j :| j in sums && sums[j] == Top(sums);
      DiskSumsAre(rows, w.start, j);
    }
  }

  /** The largest usage over all filesystems, or zero if none is positive. */
  ghost predicate IsLargest(rows: seq<Record>, start: int, top: real)
    requires Readable(rows)
  {
    && top >= 0.0 && (forall k :: KnownUsage(rows, start, k) <= top)
    && (top == 0.0 || exists k :: KnownUsage(rows, start, k) == top)
  }

  lemma {:induction false} ValueIsLargest(w: Waiting, rows: seq<Record>)
    requires Readable(rows) && w.kind.Disk?
    ensures forall top :: IsLargest(rows, w.start, top) <==> top == Value(w, rows)
  {
    forall k ensures Value(w, rows) >= KnownUsage(rows, w.start, k) {
      DiskValueCoversAll(w, rows, k);
    }
    DiskValueCoversAll(w, rows, "");
    assert IsTop(DiskSums(rows, w.start), Value(w, rows));
    hide KnownUsage, Value;
  }

  /** The notice a disk alert's window demands for the largest summed usage. */
  ghost predicate DemandsDisk(samples: nat, w: Waiting, top: real, n: Notice) {
    var count := samples % 256;
    && count > 0 && 6 * count >= 5 * w.min && Crossing(w.alert, top / count as real)
    && n == Notice(w.alert, !w.alert.triggered, top / count as real)
  }

  lemma {:induction false} DiskDecision(w: Waiting, rows: seq<Record>, time: int, n: Notice)
    requires Readable(Since(rows, time)) && w.min > 1 && w.kind.Disk? && time < w.start
    ensures n in Decision(w, Since(rows, time)) <==>
              exists top ::
                IsLargest(Since(rows, time), w.start, top) && DemandsDisk(|Window(rows, w.start)|, w, top, n)
  {
    WindowOfSelected(rows, time, w.start);
    ValueIsLargest(w, Since(rows, time));
    hide Since, Window, Crossing, IsLargest, Value;
    var selected := Since(rows, time);
    assert DemandsDisk(|Window(rows, w.start)|, w, Value(w, selected), n) <==> n in Decision(w, selected);
  }

  /** The end-to-end rule for a disk alert of more than a minute whose current value crosses: as for CPU and memory,
      with the largest summed usage in place of the sum. Usage is summed over the selected records, which may
      begin before the window and carry readings into it. */
  lemma {:induction false} FiresIffDisk(
    alerts: seq<CachedAlert>, now: int, c: Current, rows: seq<Record>, a: CachedAlert, n: Notice)
    requires a in alerts && Concerned(a, c) && Minutes(a) > 1 && KindOf(a.name) == Some(Disk) && n.alert == a
    requires Sorted(rows)
    ensures
      var (w, ws) := (WaitingFor(a, now), WaitingOf(alerts, now, c));
      var selected := Selected(rows, ws, now);
      n in Handled(alerts, now, c, rows) <==>
        && Gate(rows, Oldest(ws, now), w.start)
        && Readable(selected)
        && exists top :: IsLargest(selected, w.start, top) && DemandsDisk(|Window(rows, w.start)|, w, top, n)
  {
    hide KindOf, WaitingOf, Window, Gate, Handled, Kept, Since, Oldest, Decision, Minutes, Sorted, Crossing, Now;
    hide DemandsDisk, IsLargest;
    var w, ws := WaitingFor(a, now), WaitingOf(alerts, now, c);
    WaitingIff(alerts, now, c, a);
    WaitingStartsLater(ws, now, w);
    hide WaitingFor, Concerned, Readable, InWindow;
    OnlyItsOwnDecision(alerts, now, c, rows, a, n);
    KeptIff(ws, now, rows, w);
    if Readable(Selected(rows, ws, now)) {
      DiskDecision(w, rows, Oldest(ws, now) - 90 * SECOND, n);
    }
  }
}
