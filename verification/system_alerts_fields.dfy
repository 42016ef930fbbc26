/** The threshold evaluation told in names, fields and numbers. Times are in milliseconds. */
module SystemAlertsFields {
  import opened Wrappers
  import opened Reals
  import opened AlertData
  import opened SystemAlerts
  import opened SystemAlertsLaws

  /** The current value an alert of this name is judged by. */
  predicate JudgedBy(name: string, c: Current, val: real) {
    || (name == "CPU" && val == c.cpu)
    || (name == "Memory" && val == c.mem)
    || (name == "Disk" && val == c.disk)
  }

  lemma JudgedByIs(a: CachedAlert, c: Current, val: real)
    ensures JudgedBy(a.name, c, val) <==> KindOf(a.name).Some? && val == Now(c, KindOf(a.name).value)
  {}

  lemma ConcernedIs(a: CachedAlert, c: Current, val: real)
    requires JudgedBy(a.name, c, val)
    ensures Concerned(a, c) <==> a.triggered != (val > a.value)
  {}

  // ---------------------------------------------------------------- alerts of one minute

  lemma {:induction false} ImmediateHas(alerts: seq<CachedAlert>, c: Current, a: CachedAlert)
    requires a in alerts && Concerned(a, c) && Minutes(a) == 1
    ensures Notice(a, !a.triggered, Now(c, KindOf(a.name).value)) in Immediate(alerts, c)
  {
    if a != alerts[|alerts| - 1] {
      ImmediateHas(alerts[..|alerts| - 1], c, a);
    }
  }

  /** An alert of at most a minute flips at once, exactly if its current value is on the other side of its threshold;
      the CPU alert looks at the CPU, the memory alert at the memory, the disk alert at the disks. */
  lemma {:induction false} OneMinuteAlerts(
    alerts: seq<CachedAlert>, now: int, c: Current, rows: seq<Record>, a: CachedAlert, val: real)
    requires a in alerts && a.min <= 1 && JudgedBy(a.name, c, val)
    ensures Notice(a, !a.triggered, val) in Handled(alerts, now, c, rows) <==> a.triggered != (val > a.value)
    ensures a.name == "CPU" ==> val == c.cpu
    ensures a.name == "Memory" ==> val == c.mem
    ensures a.name == "Disk" ==> val == c.disk
  {
    JudgedByIs(a, c, val);
    ConcernedIs(a, c, val);
    hide JudgedBy, KindOf, Now, Concerned, Handled, Immediate;
    if a.triggered != (val > a.value) {
      ImmediateHas(alerts, c, a);
      HandledStartsImmediate(alerts, now, c, rows, Notice(a, !a.triggered, val));
    }
    if Notice(a, !a.triggered, val) in Handled(alerts, now, c, rows) {
      NoticesHaveCause(alerts, now, c, rows, Notice(a, !a.triggered, val));
    }
  }

  lemma HandledStartsImmediate(alerts: seq<CachedAlert>, now: int, c: Current, rows: seq<Record>, n: Notice)
    requires n in Immediate(alerts, c)
    ensures n in Handled(alerts, now, c, rows)
  {
    hide Immediate, WaitingOf, Selected, Kept, Decisions;
  }

  /** Only CPU, memory and disk alerts are ever sent, and only against the side their current value is on. */
  lemma {:induction false} OtherNamesNeverSend(
    alerts: seq<CachedAlert>, now: int, c: Current, rows: seq<Record>, n: Notice)
    requires n in Handled(alerts, now, c, rows)
    ensures n.alert in alerts
    ensures
      || (n.alert.name == "CPU" && n.alert.triggered != (c.cpu > n.alert.value))
      || (n.alert.name == "Memory" && n.alert.triggered != (c.mem > n.alert.value))
      || (n.alert.name == "Disk" && n.alert.triggered != (c.disk > n.alert.value))
  {
    NoticesHaveCause(alerts, now, c, rows, n);
    hide Handled;
  }

  // ---------------------------------------------------------------- alerts of several minutes

  /** How far back the query reaches: to the earliest window start, now less the minutes, of the alerts that wait, less
      90 seconds. */
  ghost predicate EarliestStart(alerts: seq<CachedAlert>, now: int, c: Current, oldest: int) {
    && oldest <= now
    && (forall a, val | a in alerts && a.min > 1 && JudgedBy(a.name, c, val) && a.triggered != (val > a.value) ::
          oldest <= now - a.min * 60_000)
    && (oldest == now
        || exists a, val :: a in alerts && a.min > 1 && JudgedBy(a.name, c, val) && a.triggered != (val > a.value)
                            && oldest == now - a.min * 60_000)
  }

  lemma {:induction false} EarliestStartIs(alerts: seq<CachedAlert>, now: int, c: Current)
    ensures EarliestStart(alerts, now, c, Oldest(WaitingOf(alerts, now, c), now))
  {
    var ws := WaitingOf(alerts, now, c);
    OldestIsBelow(ws, now);
    WaitingAreLong(alerts, now, c);
    hide Oldest, WaitingOf;
    forall a, val | a in alerts && a.min > 1 && JudgedBy(a.name, c, val) && a.triggered != (val > a.value)
      ensures Oldest(ws, now) <= now - a.min * 60_000
    {
      JudgedByIs(a, c, val);
      ConcernedIs(a, c, val);
      WaitingIff(alerts, now, c, a);
      var i :| 0 <= i < |ws| && ws[i] == WaitingFor(a, now);
    }
    if Oldest(ws, now) != now {
      var i :| 0 <= i < |ws| && ws[i].start == Oldest(ws, now);
      var a, val := ws[i].alert, Now(c, ws[i].kind);
      JudgedByIs(a, c, val);
      ConcernedIs(a, c, val);
      assert a in alerts && a.min > 1 && JudgedBy(a.name, c, val) && a.triggered != (val > a.value);
    }
  }

  /** Samples in a window: their number, and the sums of their CPU and memory fields. */
  function Samples(rows: seq<Record>, from: int): nat {
    if rows == [] then 0
    else Samples(rows[..|rows| - 1], from) + if rows[|rows| - 1].created >= from then 1 else 0
  }

  function SumCpu(rows: seq<Record>, from: int): real {
    if rows == [] then 0.0
    else
      var r := rows[|rows| - 1];
      SumCpu(rows[..|rows| - 1], from) + if r.created >= from && r.stats.Some? then r.stats.value.cpu else 0.0
  }

  function SumMem(rows: seq<Record>, from: int): real {
    if rows == [] then 0.0
    else
      var r := rows[|rows| - 1];
      SumMem(rows[..|rows| - 1], from) + if r.created >= from && r.stats.Some? then r.stats.value.mem else 0.0
  }

  function SumField(rows: seq<Record>, from: int, k: Kind): real {
    if k.Cpu? then SumCpu(rows, from) else SumMem(rows, from)
  }

  lemma {:induction false} WindowFields(rows: seq<Record>, start: int, k: Kind)
    ensures |Window(rows, start)| == Samples(rows, start + 10_000)
    ensures Readable(Window(rows, start)) && !k.Disk? ==>
              Sum(Window(rows, start), k) == SumField(rows, start + 10_000, k)
  {
    if rows != [] {
      var init, last := rows[..|rows| - 1], rows[|rows| - 1];
      var w, window := Window(init, start), Window(rows, start);
      WindowFields(init, start, k);
      assert window == w + if InWindow(last, start) then [last] else [];
      if !InWindow(last, start) {
        assert window == w;
      } else if Readable(window) && !k.Disk? {
        assert window[|w|] == last;
        assert forall i | 0 <= i < |w| :: w[i] == window[i];
        SumAppend(w, last, k);
      }
    }
  }

  predicate LetIn(rows: seq<Record>, oldest: int, start: int) {
    exists i :: 0 <= i < |rows| && oldest - 90_000 < rows[i].created < start
  }

  predicate Decodable(rows: seq<Record>, oldest: int) {
    forall i | 0 <= i < |rows| && rows[i].created > oldest - 90_000 :: rows[i].stats.Some?
  }

  lemma SelectedFields(rows: seq<Record>, ws: seq<Waiting>, now: int)
    ensures Readable(Selected(rows, ws, now)) <==> Decodable(rows, Oldest(ws, now))
    ensures forall start :: Gate(rows, Oldest(ws, now), start) <==> LetIn(rows, Oldest(ws, now), start)
  {
    var time := Oldest(ws, now) - 90 * SECOND;
    SinceIs(rows, time);
    var selected := Selected(rows, ws, now);
    hide Oldest, Since;
    if Decodable(rows, Oldest(ws, now)) {
      forall i | 0 <= i < |selected| ensures selected[i].stats.Some? {
        assert selected[i] in rows;
        var j :| 0 <= j < |rows| && rows[j] == selected[i];
      }
    }
    if Readable(selected) {
      forall i | 0 <= i < |rows| && rows[i].created > time ensures rows[i].stats.Some? {
        assert rows[i] in selected;
        var j :| 0 <= j < |selected| && selected[j] == rows[i];
      }
    }
  }

  /** What decides for one alert once its sum is known: enough samples, and their mean on the other side. */
  predicate Flips(a: CachedAlert, samples: nat, sum: real, n: Notice) {
    var count := samples % 256;
    && count > 0 && 6 * count >= 5 * a.min && a.triggered != (sum / count as real > a.value)
    && n == Notice(a, !a.triggered, sum / count as real)
  }

  /** A CPU or memory alert of several minutes, end to end: it flips exactly if its current value is on the other
      side, some record lies before its own window but no earlier than 90 seconds before the earliest window, all
      records from there on can be decoded, and the samples of its minutes, from ten seconds on, say so. The CPU
      alert sums the CPU field, the memory alert the memory field. */
  lemma {:induction false} LongAlerts(
    alerts: seq<CachedAlert>, now: int, c: Current, rows: seq<Record>, a: CachedAlert, val: real, n: Notice,
    oldest: int)
    requires a in alerts && a.min > 1 && n.alert == a && Sorted(rows) && JudgedBy(a.name, c, val)
    requires EarliestStart(alerts, now, c, oldest) && (a.name == "CPU" || a.name == "Memory")
    ensures
      var start := now - a.min * 60_000;
      var sum := if a.name == "CPU" then SumCpu(rows, start + 10_000) else SumMem(rows, start + 10_000);
      n in Handled(alerts, now, c, rows) <==>
        && a.triggered != (val > a.value)
        && LetIn(rows, oldest, start) && Decodable(rows, oldest)
        && Flips(a, Samples(rows, start + 10_000), sum, n)
  {
    hide EarliestStart, Handled, WaitingOf, Oldest, Selected, LetIn, Decodable, Window, Sum, SumCpu, SumMem, Samples,
      Sorted;
    OldestIs(alerts, now, c, oldest);
    WaitingFields(alerts, now, c, a, val);
    if Concerned(a, c) {
      var ws, w := WaitingOf(alerts, now, c), WaitingFor(a, now);
      WindowFields(rows, w.start, w.kind);
      SelectedFields(rows, ws, now);
      if Readable(Selected(rows, ws, now)) { WindowDecodable(rows, ws, now, w); }
      hide JudgedBy, KindOf, Now, Concerned, WaitingFor, Gate, Readable;
      FiresIff(alerts, now, c, rows, a, n);
    } else if n in Handled(alerts, now, c, rows) {
      NoticesHaveCause(alerts, now, c, rows, n);
    }
  }

  /** What an alert of several minutes waits for. */
  lemma {:induction false} WaitingFields(alerts: seq<CachedAlert>, now: int, c: Current, a: CachedAlert, val: real)
    requires a in alerts && a.min > 1 && JudgedBy(a.name, c, val)
    ensures KindOf(a.name).Some? && (Concerned(a, c) <==> a.triggered != (val > a.value)) && Minutes(a) == a.min
    ensures
      var w := WaitingFor(a, now);
      && w.alert == a && w.start == now - a.min * 60_000 && w.min == a.min
      && w.kind == (if a.name == "CPU" then Cpu else if a.name == "Memory" then Memory else Disk)
      && (Concerned(a, c) ==> w in WaitingOf(alerts, now, c))
  {
    JudgedByIs(a, c, val);
    ConcernedIs(a, c, val);
    if Concerned(a, c) {
      WaitingIff(alerts, now, c, a);
    }
    hide WaitingOf;
  }

  /** There is only one earliest start. */
  lemma {:induction false} OldestIs(alerts: seq<CachedAlert>, now: int, c: Current, oldest: int)
    requires EarliestStart(alerts, now, c, oldest)
    ensures oldest == Oldest(WaitingOf(alerts, now, c), now)
  {
    EarliestStartIs(alerts, now, c);
    hide Oldest, WaitingOf, JudgedBy;
  }

  lemma WindowDecodable(rows: seq<Record>, ws: seq<Waiting>, now: int, w: Waiting)
    requires w in ws && Readable(Selected(rows, ws, now))
    ensures Readable(Window(rows, w.start))
  {
    var time := Oldest(ws, now) - 90 * SECOND;
    WaitingStartsLater(ws, now, w);
    WindowOfSelected(rows, time, w.start);
    WindowIs(Since(rows, time), w.start);
    hide Window, Since, Oldest;
  }

  // ---------------------------------------------------------------- disks

  /** Usage of one filesystem in percent as last known at each sample of the window; the root filesystem's own
      field counts under the name "root". */
  function DiskUse(rows: seq<Record>, from: int, k: string): real
    requires Readable(rows)
  {
    if rows == [] then 0.0
    else
      var (last, fs) := (rows[|rows| - 1], LastKnown(rows, k));
      DiskUse(rows[..|rows| - 1], from, k)
      + if last.created < from then 0.0
        else (if k == "root" then last.stats.value.disk else 0.0)
             + if fs.Some? && fs.value.total > 0.0 then fs.value.used / fs.value.total * 100.0 else 0.0
  }

  lemma {:induction false} DiskUseIs(rows: seq<Record>, start: int, k: string)
    requires Readable(rows)
    ensures DiskUse(rows, start + 10_000, k) == KnownUsage(rows, start, k)
  {
    if rows != [] {
      DiskUseIs(rows[..|rows| - 1], start, k);
      hide LastKnown;
    }
  }

  /** The largest use over all filesystems, or zero if none is positive. */
  ghost predicate Largest(rows: seq<Record>, from: int, top: real)
    requires Readable(rows)
  {
    && top >= 0.0 && (forall k :: DiskUse(rows, from, k) <= top)
    && (top == 0.0 || exists k :: DiskUse(rows, from, k) == top)
  }

  lemma {:induction false} LargestIs(rows: seq<Record>, start: int)
    requires Readable(rows)
    ensures forall top :: Largest(rows, start + 10_000, top) <==> IsLargest(rows, start, top)
  {
    forall top ensures Largest(rows, start + 10_000, top) <==> IsLargest(rows, start, top) {
      LargestOne(rows, start, top);
    }
  }

  lemma {:induction false} LargestOne(rows: seq<Record>, start: int, top: real)
    requires Readable(rows)
    ensures Largest(rows, start + 10_000, top) <==> IsLargest(rows, start, top)
  {
    if Largest(rows, start + 10_000, top) {
      forall k ensures KnownUsage(rows, start, k) <= top { DiskUseIs(rows, start, k); }
      if top != 0.0 {
        var k :| DiskUse(rows, start + 10_000, k) == top;
        DiskUseIs(rows, start, k);
      }
    }
    if IsLargest(rows, start, top) {
      var from := start + 10_000;
      forall k ensures DiskUse(rows, from, k) <= top { DiskUseIs(rows, start, k); }
      if top != 0.0 {
        var k :| KnownUsage(rows, start, k) == top;
        DiskUseIs(rows, start, k);
      }
    }
    hide DiskUse, KnownUsage;
  }

  /** The records the query finds: of a sorted table, all from the first one that is new enough. */
  ghost predicate Queried(rows: seq<Record>, oldest: int, selected: seq<Record>) {
    exists k ::
      && 0 <= k <= |rows| && selected == rows[k..]
      && (forall i | 0 <= i < k :: rows[i].created <= oldest - 90_000)
      && (forall i | k <= i < |rows| :: rows[i].created > oldest - 90_000)
  }

  lemma {:induction false} QueriedIs(rows: seq<Record>, oldest: int, selected: seq<Record>)
    requires Queried(rows, oldest, selected)
    ensures selected == Since(rows, oldest - 90_000)
  {
    var k :|
      && 0 <= k <= |rows| && selected == rows[k..]
      && (forall i | 0 <= i < k :: rows[i].created <= oldest - 90_000)
      && (forall i | k <= i < |rows| :: rows[i].created > oldest - 90_000);
    SinceFrom(rows, oldest - 90_000, k);
  }

  lemma {:induction false} SinceFrom(rows: seq<Record>, time: int, k: nat)
    requires k <= |rows| && (forall i | 0 <= i < k :: rows[i].created <= time)
    requires forall i | k <= i < |rows| :: rows[i].created > time
    ensures Since(rows, time) == rows[k..]
  {
    if rows != [] {
      var init := rows[..|rows| - 1];
      if k == |rows| {
        SinceFrom(init, time, k - 1);
      } else {
        SinceFrom(init, time, k);
        assert rows[k..] == init[k..] + [rows[|rows| - 1]];
      }
    }
  }

  /** The largest use decides. */
  ghost predicate DiskFlips(selected: seq<Record>, from: int, a: CachedAlert, samples: nat, n: Notice)
    requires Readable(selected)
  {
    exists top :: Largest(selected, from, top) && Flips(a, samples, top, n)
  }

  /** A disk alert of several minutes likewise, with the largest use over all filesystems in place of the sum. */
  lemma {:induction false} LongDiskAlerts(
    alerts: seq<CachedAlert>, now: int, c: Current, rows: seq<Record>, a: CachedAlert, n: Notice, oldest: int,
    selected: seq<Record>)
    requires a in alerts && a.min > 1 && n.alert == a && Sorted(rows) && a.name == "Disk"
    requires EarliestStart(alerts, now, c, oldest) && Queried(rows, oldest, selected)
    ensures
      var start := now - a.min * 60_000;
      n in Handled(alerts, now, c, rows) <==>
        && a.triggered != (c.disk > a.value)
        && LetIn(rows, oldest, start) && Readable(selected)
        && DiskFlips(selected, start + 10_000, a, Samples(rows, start + 10_000), n)
  {
    hide EarliestStart, Handled, WaitingOf, Oldest, LetIn, Decodable, Sorted, DiskFlips, Since, Queried, Samples;
    OldestIs(alerts, now, c, oldest);
    QueriedIs(rows, oldest, selected);
    WaitingFields(alerts, now, c, a, c.disk);
    if Concerned(a, c) {
      SelectedFields(rows, WaitingOf(alerts, now, c), now);
      hide JudgedBy, KindOf, Now, Concerned, WaitingFor, Gate, Readable;
      DiskFires(alerts, now, c, rows, a, n, now - a.min * 60_000);
    } else if n in Handled(alerts, now, c, rows) {
      NoticesHaveCause(alerts, now, c, rows, n);
    }
  }

  lemma {:induction false} DiskFires(
    alerts: seq<CachedAlert>, now: int, c: Current, rows: seq<Record>, a: CachedAlert, n: Notice, start: int)
    requires a in alerts && Concerned(a, c) && Minutes(a) == a.min > 1 && KindOf(a.name) == Some(Disk) && n.alert == a
    requires Sorted(rows) && start == now - a.min * 60_000
    ensures
      var ws := WaitingOf(alerts, now, c);
      var selected := Selected(rows, ws, now);
      n in Handled(alerts, now, c, rows) <==>
        && Gate(rows, Oldest(ws, now), start) && Readable(selected)
        && DiskFlips(selected, start + 10_000, a, Samples(rows, start + 10_000), n)
  {
    var ws, w := WaitingOf(alerts, now, c), WaitingFor(a, now);
    DiskTops(rows, Selected(rows, ws, now), a, w, start + 10_000, n);
    hide Handled, WaitingOf, Oldest, Sorted, DiskFlips, Selected, Samples, Concerned, Gate, Readable, IsLargest,
      DemandsDisk;
    FiresIffDisk(alerts, now, c, rows, a, n);
  }

  lemma DiskTops(
    rows: seq<Record>, selected: seq<Record>, a: CachedAlert, w: Waiting, from: int, n: Notice)
    requires w.alert == a && w.min == a.min && from == w.start + 10_000
    ensures Readable(selected) ==>
      ((exists top :: IsLargest(selected, w.start, top) && DemandsDisk(|Window(rows, w.start)|, w, top, n))
       <==> DiskFlips(selected, from, a, Samples(rows, from), n))
  {
    if Readable(selected) {
      LargestIs(selected, w.start);
      WindowFields(rows, w.start, Disk);
      hide Window, Samples, Largest, IsLargest;
      assert forall top :: Largest(selected, from, top) <==> IsLargest(selected, w.start, top);
      assert forall top :: DemandsDisk(|Window(rows, w.start)|, w, top, n) <==> Flips(a, Samples(rows, from), top, n);
    }
  }
}
