/** The evaluation as it runs: one pass over the records that updates every waiting alert in place. */
module SystemAlertsPass {
  import opened Wrappers
  import opened AlertData
  import opened SystemAlerts

  /** A waiting alert during the pass. val is first the current value, then a running sum. */
  datatype Tracked = Tracked(w: Waiting, val: real, triggered: bool, count: nat, sums: map<string, real>)

  function SumSoFar(w: Waiting, rows: seq<Record>): real
    requires Readable(rows)
  {
    if w.kind.Disk? then 0.0 else WindowSum(rows, w.start, w.kind)
  }

  function SumsSoFar(w: Waiting, rows: seq<Record>): map<string, real>
    requires Readable(rows)
  {
    if w.kind.Disk? then DiskSums(rows, w.start) else map[]
  }

  /** What an alert has become after some records. */
  function Progress(t: Tracked, rows: seq<Record>): Tracked
    requires Readable(rows)
  {
    Tracked(t.w, if rows == [] then t.val else SumSoFar(t.w, rows), t.triggered,
            Count(rows, t.w.start), SumsSoFar(t.w, rows))
  }

  ghost predicate Started(ts: seq<Tracked>, ws: seq<Waiting>) {
    && |ts| == |ws|
    && forall i | 0 <= i < |ts| ::
         ts[i].w == ws[i] && ts[i].triggered == ws[i].alert.triggered && ts[i].count == 0 && ts[i].sums == map[]
  }

  method AddFilesystem(sums: map<string, real>, k: string, f: Filesystem) returns (r: map<string, real>)
    ensures r == if f.total > 0.0 then sums[k := At(sums, k) + Percent(f)] else sums
  {
    r := sums;
    if f.total > 0.0 {
      if k !in r {
        r := r[k := 0.0];
      }
      r := r[k := r[k] + Percent(f)];
    }
  }

  /** `for key, fs := range stats.ExtraFs`, in any order of the keys. */
  method AddFilesystems(sums: map<string, real>, disk: real, extraFs: map<string, Filesystem>)
    returns (r: map<string, real>)
    ensures r == AddDisk(sums, disk, extraFs)
  {
    r := sums;
    if "root" !in r {
      r := r["root" := 0.0];
    }
    r := r["root" := r["root"] + disk];
    ghost var start := r;
    assert start == AddRoot(sums, disk);
    ghost var before: map<string, Filesystem> := map[];
    assert r == AddMounted(start, before);
    hide AddRoot, Percent, AddMounted, At;
    var todo := extraFs.Keys;
    while todo != {}
      invariant todo <= extraFs.Keys && before.Keys == extraFs.Keys - todo
      invariant forall k | k in before :: before[k] == extraFs[k]
      invariant r == AddMounted(start, before)
    {
      var k :| k in todo;
      AddOneMore(start, before, k, extraFs[k]);
      r := AddFilesystem(r, k, extraFs[k]);
      before := before[k := extraFs[k]];
      todo := todo - {k};
    }
    assert before == extraFs;
  }

  lemma AddOneMore(sums: map<string, real>, fs: map<string, Filesystem>, k: string, f: Filesystem)
    requires k !in fs
    ensures
      var r := AddMounted(sums, fs);
      AddMounted(sums, fs[k := f]) == if f.total > 0.0 then r[k := At(r, k) + Percent(f)] else r
  {
    hide Percent;
  }

  /** One record for one alert. */
  method Touch(
    t: Tracked, isFirst: bool, r: Record, extraFs: map<string, Filesystem>, ghost t0: Tracked, ghost rows: seq<Record>)
    returns (t': Tracked)
    requires r.stats.Some? && Readable(rows) && t == Progress(t0, rows) && (isFirst <==> rows == [])
    requires extraFs == Carried(rows + [r])
    ensures t' == Progress(t0, rows + [r])
  {
    hide Progress, AddDisk, Carried, Readable;
    ProgressOneMore(t0, rows, r);
    t' := t;
    if isFirst {
      t' := t'.(val := 0.0);
    }
    if !(r.created - 10 * SECOND < t.w.start) {
      if t.w.kind.Disk? {
        var sums := AddFilesystems(t'.sums, r.stats.value.disk, extraFs);
        t' := t'.(sums := sums);
      } else {
        t' := t'.(val := t'.val + if t.w.kind.Cpu? then r.stats.value.cpu else r.stats.value.mem);
      }
      t' := t'.(count := (t'.count + 1) % 256);
    }
  }

  lemma {:induction false} ProgressOneMore(t0: Tracked, rows: seq<Record>, r: Record)
    requires Readable(rows) && r.stats.Some?
    ensures Readable(rows + [r])
    ensures
      var (t, t', w) := (Progress(t0, rows), Progress(t0, rows + [r]), t0.w);
      && t'.w == t.w == w && t'.triggered == t.triggered
      && (var val := if rows == [] then 0.0 else t.val;
          if InWindow(r, w.start) then
            && t'.count == (t.count + 1) % 256
            && t'.val == (if w.kind.Disk? then val else val + Metric(r.stats.value, w.kind))
            && t'.sums == (if w.kind.Disk? then AddDisk(t.sums, r.stats.value.disk, Carried(rows + [r])) else t.sums)
          else t' == t.(val := val))
  {
    CountOneMore(rows, r, t0.w.start);
    SumsOneMore(t0.w, rows, r);
    assert rows == [] ==> SumSoFar(t0.w, rows) == 0.0;
    hide AddDisk, Carried, Count, SumSoFar, SumsSoFar, InWindow, Metric;
  }

  lemma CountOneMore(rows: seq<Record>, r: Record, start: int)
    ensures Count(rows + [r], start)
            == if InWindow(r, start) then (Count(rows, start) + 1) % 256 else Count(rows, start)
  {
    assert (rows + [r])[..|rows|] == rows;
    NextCount(|Window(rows, start)|);
    hide InWindow;
  }

  lemma {:induction false} SumsOneMore(w: Waiting, rows: seq<Record>, r: Record)
    requires Readable(rows) && r.stats.Some?
    ensures Readable(rows + [r])
    ensures SumSoFar(w, rows + [r]) ==
            SumSoFar(w, rows) + if InWindow(r, w.start) && !w.kind.Disk? then Metric(r.stats.value, w.kind) else 0.0
    ensures SumsSoFar(w, rows + [r]) ==
            if InWindow(r, w.start) && w.kind.Disk?
            then AddDisk(SumsSoFar(w, rows), r.stats.value.disk, Carried(rows + [r])) else SumsSoFar(w, rows)
  {
    var all := rows + [r];
    assert all[..|all| - 1] == rows && all[|all| - 1] == r;
    hide AddDisk, Carried, InWindow, Metric;
  }

  lemma NothingYet(t: Tracked)
    requires t.count == 0 && t.sums == map[]
    ensures Progress(t, []) == t
  {}

  lemma NextCount(n: nat)
    ensures (n % 256 + 1) % 256 == (n + 1) % 256
  {}

  /** The records × alerts loops; stops at a record that cannot be decoded. */
  method Accumulate(a: array<Tracked>, rows: seq<Record>, ghost ts: seq<Tracked>, ghost ws: seq<Waiting>)
    returns (ok: bool)
    requires a[..] == ts && Started(ts, ws)
    modifies a
    ensures ok <==> Readable(rows)
    ensures ok ==> forall k | 0 <= k < a.Length :: a[k] == Progress(ts[k], rows)
  {
    var extraFs: map<string, Filesystem> := map[];
    forall k | 0 <= k < |ts| ensures Progress(ts[k], []) == ts[k] { NothingYet(ts[k]); }
    assert rows[..0] == [];
    hide Progress;
    for i := 0 to |rows|
      invariant Readable(rows[..i]) && extraFs == Carried(rows[..i])
      invariant forall k | 0 <= k < a.Length :: a[k] == Progress(ts[k], rows[..i])
    {
      var stat := rows[i];
      if stat.stats.None? {
        return false;
      }
      assert rows[..i + 1] == rows[..i] + [stat];
      assert rows[..i + 1][..i] == rows[..i];
      assert Carried(rows[..i + 1]) == Carried(rows[..i]) + stat.stats.value.extraFs;
      extraFs := extraFs + stat.stats.value.extraFs;
      AccumulateRecord(a, i == 0, stat, extraFs, ts, rows[..i]);
    }
    assert rows[..|rows|] == rows;
    ok := true;
  }

  method AccumulateRecord(
    a: array<Tracked>, isFirst: bool, r: Record, extraFs: map<string, Filesystem>,
    ghost ts: seq<Tracked>, ghost rows: seq<Record>)
    requires r.stats.Some? && Readable(rows) && (isFirst <==> rows == []) && extraFs == Carried(rows + [r])
    requires a.Length == |ts| && forall k | 0 <= k < a.Length :: a[k] == Progress(ts[k], rows)
    modifies a
    ensures Readable(rows + [r])
    ensures forall k | 0 <= k < a.Length :: a[k] == Progress(ts[k], rows + [r])
  {
    hide Progress, Carried;
    for j := 0 to a.Length
      invariant forall k | 0 <= k < j :: a[k] == Progress(ts[k], rows + [r])
      invariant forall k | j <= k < a.Length :: a[k] == Progress(ts[k], rows)
    {
      a[j] := Touch(a[j], isFirst, r, extraFs, ts[j], rows);
    }
  }

  method MaxSum(sums: map<string, real>) returns (m: real)
    ensures IsTop(sums, m)
  {
    m := 0.0;
    var todo := sums.Keys;
    while todo != {}
      invariant todo <= sums.Keys && m >= 0.0
      invariant forall k | k in sums && k !in todo :: sums[k] <= m
      invariant m == 0.0 || exists k :: k in sums && sums[k] == m
    {
      var k :| k in todo;
      if sums[k] > m {
        m := sums[k];
      }
      todo := todo - {k};
    }
  }

  method Decide(t: Tracked, ghost rows: seq<Record>, ghost t0: Tracked) returns (sent: seq<Notice>)
    requires Readable(rows) && rows != [] && t == Progress(t0, rows)
    requires t0.w.min > 1 && t0.triggered == t0.w.alert.triggered
    ensures sent == Decision(t0.w, rows)
  {
    sent := [];
    var total := t.val;
    if t.w.kind.Disk? {
      total := MaxSum(t.sums);
      TopIsUnique(t.sums, total, Top(t.sums));
    }
    assert total == Value(t0.w, rows);
    hide Value;
    if 6 * t.count >= 5 * t.w.min {
      var val := total / t.count as real;
      if !t.triggered && val > t.w.alert.value {
        sent := [Notice(t.w.alert, true, val)];
      } else if t.triggered && val <= t.w.alert.value {
        sent := [Notice(t.w.alert, false, val)];
      }
    }
  }

  method DecideAll(a: array<Tracked>, ghost rows: seq<Record>, ghost ts: seq<Tracked>, ghost ws: seq<Waiting>)
    returns (sent: seq<Notice>)
    requires Readable(rows) && rows != [] && a.Length == |ts| && Started(ts, ws)
    requires forall k | 0 <= k < a.Length :: a[k] == Progress(ts[k], rows)
    requires forall k | 0 <= k < |ws| :: ws[k].min > 1
    ensures sent == Decisions(ws, rows)
  {
    hide Progress, Decision;
    sent := [];
    for i := 0 to a.Length
      invariant sent == Decisions(ws[..i], rows)
    {
      assert ws[..i + 1][..i] == ws[..i];
      var one := Decide(a[i], rows, ts[i]);
      sent := sent + one;
    }
    assert ws[..|ws|] == ws;
  }

  /** Whether the current values concern an alert: one of a minute is sent at once, others wait. */
  method ExamineOne(a: CachedAlert, now: int, c: Current) returns (sent: seq<Notice>, valid: seq<Tracked>)
    ensures sent == Immediate([a], c) && Started(valid, WaitingOf([a], now, c))
  {
    assert [a][..0] == [];
    sent, valid := [], [];
    var kind := KindOf(a.name);
    if kind.None? {
      return;
    }
    var val := Now(c, kind.value);
    if (!a.triggered && val <= a.value) || (a.triggered && val > a.value) {
      return;
    }
    var min := Minutes(a);
    if min == 1 {
      sent := [Notice(a, val > a.value, val)];
      return;
    }
    valid := [Tracked(Waiting(a, kind.value, now - min * MINUTE, min), val, a.triggered, 0, map[])];
  }

  lemma OneAlertMore(alerts: seq<CachedAlert>, a: CachedAlert, now: int, c: Current)
    ensures Immediate(alerts + [a], c) == Immediate(alerts, c) + Immediate([a], c)
    ensures WaitingOf(alerts + [a], now, c) == WaitingOf(alerts, now, c) + WaitingOf([a], now, c)
    ensures
      var (before, one) := (Oldest(WaitingOf(alerts, now, c), now), WaitingOf([a], now, c));
      && |one| <= 1
      && Oldest(WaitingOf(alerts + [a], now, c), now)
         == if one != [] && one[0].start < before then one[0].start else before
  {
    assert (alerts + [a])[..|alerts|] == alerts && [a][..0] == [];
    var ws, one := WaitingOf(alerts, now, c), WaitingOf([a], now, c);
    assert one != [] ==> (ws + one)[..|ws|] == ws;
    assert ws + [] == ws;
    hide Concerned;
  }

  method Examine(
    alerts: seq<CachedAlert>, now: int, c: Current)
    returns (sent: seq<Notice>, valid: seq<Tracked>, oldest: int)
    ensures sent == Immediate(alerts, c)
    ensures Started(valid, WaitingOf(alerts, now, c)) && oldest == Oldest(WaitingOf(alerts, now, c), now)
  {
    hide Immediate, WaitingOf, Oldest;
    sent, valid, oldest := [], [], now;
    NoAlerts(now, c);
    for i := 0 to |alerts|
      invariant sent == Immediate(alerts[..i], c)
      invariant Started(valid, WaitingOf(alerts[..i], now, c)) && oldest == Oldest(WaitingOf(alerts[..i], now, c), now)
    {
      assert alerts[..i + 1] == alerts[..i] + [alerts[i]];
      OneAlertMore(alerts[..i], alerts[i], now, c);
      var notice, one := ExamineOne(alerts[i], now, c);
      if one != [] && one[0].w.start < oldest {
        oldest := one[0].w.start;
      }
      sent, valid := sent + notice, valid + one;
    }
    assert alerts[..|alerts|] == alerts;
  }

  lemma NoAlerts(now: int, c: Current)
    ensures Immediate([], c) == [] && WaitingOf([], now, c) == [] && Oldest([], now) == now
  {}

  method FilterByTime(valid: seq<Tracked>, time: int, ghost ws: seq<Waiting>) returns (r: seq<Tracked>)
    requires Started(valid, ws)
    ensures Started(r, Kept(ws, time))
  {
    r := [];
    for i := 0 to |valid|
      invariant Started(r, Kept(ws[..i], time))
    {
      assert ws[..i + 1][..i] == ws[..i];
      if valid[i].w.start > time {
        r := r + [valid[i]];
      }
    }
    assert ws[..|ws|] == ws;
  }

  /** The interleaved pass sends exactly what the separate windows of the alerts demand; rows are the
      system's one-minute records as the query would find them. ok is false if it gave up on a record
      that cannot be decoded. */
  method HandleSystemAlerts(alerts: seq<CachedAlert>, now: int, c: Current, rows: seq<Record>)
    returns (sent: seq<Notice>, ok: bool)
    ensures sent == Handled(alerts, now, c, rows)
    ensures
      var ws := WaitingOf(alerts, now, c);
      var selected := Selected(rows, ws, now);
      ok <==> selected == [] || Kept(ws, selected[0].created) == [] || Readable(selected)
  {
    hide Immediate, WaitingOf, Oldest, Since, Kept, Decisions, Readable;
    if |alerts| == 0 {
      NothingToDo(now, c, rows);
      return [], true;
    }
    var valid, oldest;
    sent, valid, oldest := Examine(alerts, now, c);
    ghost var ws := WaitingOf(alerts, now, c);
    var systemStats := Since(rows, oldest - 90 * SECOND);
    if systemStats == [] {
      return sent, true;
    }
    var rest, fine := Evaluate(valid, systemStats, ws, alerts, now, c);
    return sent + rest, fine;
  }

  lemma NoDecisions(rows: seq<Record>)
    ensures Readable(rows) ==> Decisions([], rows) == []
  {}

  lemma NothingToDo(now: int, c: Current, rows: seq<Record>)
    ensures WaitingOf([], now, c) == [] && Handled([], now, c, rows) == []
    ensures forall time :: Kept([], time) == []
  {}

  method Evaluate(
    valid: seq<Tracked>, rows: seq<Record>, ghost ws: seq<Waiting>,
    ghost alerts: seq<CachedAlert>, ghost now: int, ghost c: Current)
    returns (sent: seq<Notice>, ok: bool)
    requires rows != [] && Started(valid, ws) && ws == WaitingOf(alerts, now, c)
    ensures forall i | 0 <= i < |Kept(ws, rows[0].created)| :: Kept(ws, rows[0].created)[i].min > 1
    ensures sent == if Readable(rows) then Decisions(Kept(ws, rows[0].created), rows) else []
    ensures ok <==> Kept(ws, rows[0].created) == [] || Readable(rows)
  {
    hide Kept, WaitingOf, Decisions, Progress;
    var kept := FilterByTime(valid, rows[0].created, ws);
    ghost var ks := Kept(ws, rows[0].created);
    WaitingAreLong(alerts, now, c);
    KeptAreWaiting(ws, rows[0].created);
    if kept == [] {
      NoDecisions(rows);
      return [], true;
    }
    var a := new Tracked[|kept|](i requires 0 <= i < |kept| => kept[i]);
    assert a[..] == kept;
    ok := Accumulate(a, rows, kept, ks);
    sent := [];
    if ok {
      sent := DecideAll(a, rows, kept, ks);
    }
  }
}
