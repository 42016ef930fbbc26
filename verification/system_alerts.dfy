/** Threshold alerts of a system: what each alert's decision is, stated one alert and one window at a
    time. Times are in milliseconds; percentages are exact. */
module SystemAlerts {
  import opened Wrappers
  import opened AlertData

  const SECOND := 1000
  const MINUTE := 60 * SECOND

  datatype Kind = Cpu | Memory | Disk

  datatype Filesystem = Filesystem(used: real, total: real)

  datatype Sample = Sample(cpu: real, mem: real, disk: real, extraFs: map<string, Filesystem>)

  /** A one-minute record; None if its stats cannot be decoded. */
  datatype Record = Record(created: int, stats: Option<Sample>)

  /** What is sent for an alert: its new state and the value reported. */
  datatype Notice = Notice(alert: CachedAlert, triggered: bool, val: real)

  /** The current values the evaluation starts from; disk is the highest usage over all filesystems. */
  datatype Current = Current(cpu: real, mem: real, disk: real)

  /** An alert that waits for its window to be evaluated. */
  datatype Waiting = Waiting(alert: CachedAlert, kind: Kind, start: int, min: nat)

  function KindOf(name: string): Option<Kind> {
    if name == "CPU" then Some(Cpu)
    else if name == "Memory" then Some(Memory)
    else if name == "Disk" then Some(Disk)
    else None
  }

  function Now(c: Current, k: Kind): real {
    match k
    case Cpu => c.cpu
    case Memory => c.mem
    case Disk => c.disk
  }

  function Minutes(a: CachedAlert): nat { if a.min < 1 then 1 else a.min }

  /** The current value is on the other side of the threshold than the alert's state. */
  predicate Crossing(a: CachedAlert, val: real) { a.triggered != (val > a.value) }

  predicate Concerned(a: CachedAlert, c: Current) {
    KindOf(a.name).Some? && Crossing(a, Now(c, KindOf(a.name).value))
  }

  function Immediate(alerts: seq<CachedAlert>, c: Current): seq<Notice> {
    if alerts == [] then []
    else
      var a := alerts[|alerts| - 1];
      Immediate(alerts[..|alerts| - 1], c)
      + if Concerned(a, c) && Minutes(a) == 1
        then [Notice(a, !a.triggered, Now(c, KindOf(a.name).value))] else []
  }

  function WaitingOf(alerts: seq<CachedAlert>, now: int, c: Current): seq<Waiting> {
    if alerts == [] then []
    else
      var a := alerts[|alerts| - 1];
      WaitingOf(alerts[..|alerts| - 1], now, c)
      + if Concerned(a, c) && Minutes(a) > 1
        then [Waiting(a, KindOf(a.name).value, now - Minutes(a) * MINUTE, Minutes(a))] else []
  }

  function Oldest(ws: seq<Waiting>, now: int): int {
    if ws == [] then now
    else
      var (before, start) := (Oldest(ws[..|ws| - 1], now), ws[|ws| - 1].start);
      if start < before then start else before
  }

  /** The records created after some time, in the order of the table. */
  function Since(rows: seq<Record>, time: int): seq<Record> {
    if rows == [] then []
    else Since(rows[..|rows| - 1], time) + if rows[|rows| - 1].created > time then [rows[|rows| - 1]] else []
  }

  function Selected(rows: seq<Record>, ws: seq<Waiting>, now: int): seq<Record> {
    Since(rows, Oldest(ws, now) - 90 * SECOND)
  }

  /** The alerts whose window starts after the oldest selected record. */
  function Kept(ws: seq<Waiting>, oldest: int): seq<Waiting> {
    if ws == [] then []
    else Kept(ws[..|ws| - 1], oldest) + if ws[|ws| - 1].start > oldest then [ws[|ws| - 1]] else []
  }

  predicate InWindow(r: Record, start: int) { r.created - 10 * SECOND >= start }

  function Window(rows: seq<Record>, start: int): seq<Record> {
    if rows == [] then []
    else Window(rows[..|rows| - 1], start) + if InWindow(rows[|rows| - 1], start) then [rows[|rows| - 1]] else []
  }

  predicate Readable(rows: seq<Record>) { forall i | 0 <= i < |rows| :: rows[i].stats.Some? }

  function Metric(s: Sample, k: Kind): real
    requires !k.Disk?
  {
    if k.Cpu? then s.cpu else s.mem
  }

  function Sum(rows: seq<Record>, k: Kind): real
    requires Readable(rows) && !k.Disk?
  {
    if rows == [] then 0.0 else Sum(rows[..|rows| - 1], k) + Metric(rows[|rows| - 1].stats.value, k)
  }

  // ---------------------------------------------------------------- disks

  /** Decoding reuses one value for all records, so a filesystem stays known after a record lacks it. */
  function Carried(rows: seq<Record>): map<string, Filesystem>
    requires Readable(rows)
  {
    if rows == [] then map[] else Carried(rows[..|rows| - 1]) + rows[|rows| - 1].stats.value.extraFs
  }

  function Percent(fs: Filesystem): real
    requires fs.total > 0.0
  {
    fs.used / fs.total * 100.0
  }

  predicate Mounted(fs: map<string, Filesystem>, k: string) { k in fs && fs[k].total > 0.0 }

  function At(sums: map<string, real>, k: string): real { if k in sums then sums[k] else 0.0 }

  function AddRoot(sums: map<string, real>, disk: real): map<string, real> {
    sums["root" := At(sums, "root") + disk]
  }

  function AddMounted(sums: map<string, real>, fs: map<string, Filesystem>): map<string, real> {
    map k | k in sums.Keys + fs.Keys && (k in sums || Mounted(fs, k)) ::
      if Mounted(fs, k) then At(sums, k) + Percent(fs[k]) else sums[k]
  }

  function AddDisk(sums: map<string, real>, disk: real, fs: map<string, Filesystem>): map<string, real> {
    AddMounted(AddRoot(sums, disk), fs)
  }

  /** Usage per filesystem summed over the records in the window. */
  function DiskSums(rows: seq<Record>, start: int): map<string, real>
    requires Readable(rows)
  {
    if rows == [] then map[]
    else
      var (init, last) := (rows[..|rows| - 1], rows[|rows| - 1]);
      if InWindow(last, start) then AddDisk(DiskSums(init, start), last.stats.value.disk, Carried(rows))
      else DiskSums(init, start)
  }

  /** The largest sum, or zero if none is positive. */
  predicate IsTop(sums: map<string, real>, m: real) {
    && m >= 0.0
    && (forall k | k in sums :: sums[k] <= m)
    && (m == 0.0 || exists k :: k in sums && sums[k] == m)
  }

  lemma {:induction false} TopExists(sums: map<string, real>)
    ensures exists m :: IsTop(sums, m)
  {
    if sums == map[] {
      assert IsTop(sums, 0.0);
    } else {
      var k :| k in sums;
      var rest := sums - {k};
      TopExists(rest);
      var m :| IsTop(rest, m);
      assert forall j | j in sums && j != k :: j in rest && sums[j] == rest[j];
      assert IsTop(sums, if sums[k] > m then sums[k] else m);
    }
  }

  ghost function Top(sums: map<string, real>): (m: real)
    ensures IsTop(sums, m)
  {
    TopExists(sums);
    var m :| IsTop(sums, m);
    m
  }

  lemma TopIsUnique(sums: map<string, real>, a: real, b: real)
    requires IsTop(sums, a) && IsTop(sums, b)
    ensures a == b
  {}

  // ---------------------------------------------------------------- decisions

  /** Sample counts are kept in 8 bits. */
  function Count(rows: seq<Record>, start: int): nat { |Window(rows, start)| % 256 }

  ghost function Value(w: Waiting, rows: seq<Record>): real
    requires Readable(rows)
  {
    if w.kind.Disk? then Top(DiskSums(rows, w.start)) else WindowSum(rows, w.start, w.kind)
  }

  function WindowSum(rows: seq<Record>, start: int, k: Kind): real
    requires Readable(rows) && !k.Disk?
  {
    if rows == [] then 0.0
    else
      WindowSum(rows[..|rows| - 1], start, k)
      + if InWindow(rows[|rows| - 1], start) then Metric(rows[|rows| - 1].stats.value, k) else 0.0
  }

  predicate EnoughSamples(count: nat, min: nat) { 6 * count >= 5 * min }

  /** What becomes of one waiting alert. */
  ghost function Decision(w: Waiting, rows: seq<Record>): seq<Notice>
    requires Readable(rows) && w.min > 1
  {
    var count := Count(rows, w.start);
    if EnoughSamples(count, w.min) && Crossing(w.alert, Value(w, rows) / count as real)
    then [Notice(w.alert, !w.alert.triggered, Value(w, rows) / count as real)] else []
  }

  ghost function Decisions(ws: seq<Waiting>, rows: seq<Record>): seq<Notice>
    requires Readable(rows) && forall i | 0 <= i < |ws| :: ws[i].min > 1
  {
    if ws == [] then [] else Decisions(ws[..|ws| - 1], rows) + Decision(ws[|ws| - 1], rows)
  }

  /** The whole evaluation: alerts of one minute at once, the others each by its own window. */
  ghost function Handled(alerts: seq<CachedAlert>, now: int, c: Current, rows: seq<Record>): seq<Notice> {
    var ws := WaitingOf(alerts, now, c);
    var selected := Selected(rows, ws, now);
    WaitingAreLong(alerts, now, c);
    if selected == [] || !Readable(selected) then Immediate(alerts, c)
    else
      KeptAreWaiting(ws, selected[0].created);
      Immediate(alerts, c) + Decisions(Kept(ws, selected[0].created), selected)
  }

  lemma {:induction false} WaitingAreLong(alerts: seq<CachedAlert>, now: int, c: Current)
    ensures forall i | 0 <= i < |WaitingOf(alerts, now, c)| ::
              var w := WaitingOf(alerts, now, c)[i];
              w.min > 1 && w.alert in alerts && w.start == now - w.min * MINUTE && w.min == Minutes(w.alert)
              && KindOf(w.alert.name) == Some(w.kind) && Crossing(w.alert, Now(c, w.kind))
  {
    if alerts != [] {
      WaitingAreLong(alerts[..|alerts| - 1], now, c);
    }
  }

  lemma {:induction false} KeptAreWaiting(ws: seq<Waiting>, oldest: int)
    ensures forall i | 0 <= i < |Kept(ws, oldest)| :: Kept(ws, oldest)[i] in ws && Kept(ws, oldest)[i].start > oldest
    ensures forall i | 0 <= i < |ws| && ws[i].start > oldest :: ws[i] in Kept(ws, oldest)
  {
    if ws != [] {
      KeptAreWaiting(ws[..|ws| - 1], oldest);
    }
  }
}
