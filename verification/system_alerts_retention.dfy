/** Threshold windows against the retention of the one-minute records they are made of. */
module SystemAlertsRetention {
  import opened AlertData
  import opened SystemAlerts
  import opened SystemAlertsLaws
  import RollupJobs

  /** How long one-minute records are kept, in milliseconds. */
  const RETENTION: int := RollupJobs.Retention(RollupJobs.M1) * SECOND

  /** The rows a cleanup at time t leaves: it deletes those created before t less the retention. */
  function Cleaned(rows: seq<Record>, t: int): seq<Record> {
    if rows == [] then []
    else
      Cleaned(rows[..|rows| - 1], t)
      + if rows[|rows| - 1].created < t - RETENTION then [] else [rows[|rows| - 1]]
  }

  lemma {:induction false} CleanedIs(rows: seq<Record>, t: int)
    ensures forall r :: r in Cleaned(rows, t) <==> r in rows && r.created >= t - RETENTION
  {
    if rows != [] {
      CleanedIs(rows[..|rows| - 1], t);
      assert rows == rows[..|rows| - 1] + [rows[|rows| - 1]];
    }
  }

  lemma {:induction false} CleanedIsSorted(rows: seq<Record>, t: int)
    requires Sorted(rows)
    ensures Sorted(Cleaned(rows, t))
  {
    if rows != [] {
      var init, last := rows[..|rows| - 1], rows[|rows| - 1];
      CleanedIsSorted(init, t);
      CleanedIs(init, t);
      forall r | r in Cleaned(init, t) ensures r.created <= last.created {
        var i :| 0 <= i < |init| && init[i] == r;
        assert rows[i] == r;
      }
    }
  }

  /** A query that reaches back no further than the retention finds what it would find without the cleanup. */
  lemma {:induction false} RecentQueryUnchanged(rows: seq<Record>, t: int, time: int)
    requires time >= t - RETENTION
    ensures Since(Cleaned(rows, t), time) == Since(rows, time)
  {
    if rows != [] {
      var init, last := rows[..|rows| - 1], rows[|rows| - 1];
      RecentQueryUnchanged(init, t, time);
      var c := Cleaned(init, t);
      assert (c + [last])[..|c|] == c;
      if last.created < t - RETENTION {
        assert Cleaned(rows, t) == c;
        assert Since(rows, time) == Since(init, time);
      } else {
        assert Cleaned(rows, t) == c + [last];
      }
    }
  }

  /** While the widest window of the waiting alerts and the 90 seconds before it lie within the retention of the last
      cleanup, the cleanup changes nothing about the evaluation. */
  lemma {:induction false} CleanupChangesNothing(
    alerts: seq<CachedAlert>, now: int, c: Current, rows: seq<Record>, t: int)
    requires Oldest(WaitingOf(alerts, now, c), now) - 90 * SECOND >= t - RETENTION
    ensures Handled(alerts, now, c, Cleaned(rows, t)) == Handled(alerts, now, c, rows)
  {
    hide WaitingOf, Oldest, Since, Cleaned;
    RecentQueryUnchanged(rows, t, Oldest(WaitingOf(alerts, now, c), now) - 90 * SECOND);
  }

  /** Exactly when a cleanup keeps out an alert that would be let in: every record between the query's bound and the
      start of the alert's window, of which there is one, is older than the retention. */
  lemma {:induction false} KeptOutIff(rows: seq<Record>, oldest: int, start: int, t: int)
    ensures
      Gate(rows, oldest, start) && !Gate(Cleaned(rows, t), oldest, start) <==>
        && Gate(rows, oldest, start)
        && forall i | 0 <= i < |rows| && oldest - 90 * SECOND < rows[i].created < start ::
             rows[i].created < t - RETENTION
  {
    CleanedIs(rows, t);
    var kept := Cleaned(rows, t);
    hide Cleaned;
    if i :| 0 <= i < |rows| && oldest - 90 * SECOND < rows[i].created < start && rows[i].created >= t - RETENTION {
      assert rows[i] in kept;
      var j :| 0 <= j < |kept| && kept[j] == rows[i];
    }
    if j :| 0 <= j < |kept| && oldest - 90 * SECOND < kept[j].created < start {
      assert kept[j] in kept;
      var i :| 0 <= i < |rows| && rows[i] == kept[j];
    }
  }

  /** An alert whose window starts no later than the retention of the last cleanup is not evaluated at all: nothing is
      sent for it, whatever the records say. */
  lemma {:induction false} LongAlertsAreKeptOut(
    alerts: seq<CachedAlert>, now: int, c: Current, rows: seq<Record>, t: int, a: CachedAlert, n: Notice)
    requires a in alerts && Concerned(a, c) && Minutes(a) > 1 && n.alert == a && Sorted(rows)
    requires WaitingFor(a, now).start <= t - RETENTION
    ensures n !in Handled(alerts, now, c, Cleaned(rows, t))
  {
    var w, ws, kept := WaitingFor(a, now), WaitingOf(alerts, now, c), Cleaned(rows, t);
    CleanedIs(rows, t);
    CleanedIsSorted(rows, t);
    assert !Gate(kept, Oldest(ws, now), w.start) by {
      forall i | 0 <= i < |kept| ensures kept[i].created >= t - RETENTION {
        assert kept[i] in kept;
      }
    }
    WaitingIff(alerts, now, c, a);
    hide Cleaned, WaitingOf, WaitingFor, Oldest, Handled, Kept, Decision, Gate, Concerned, Minutes;
    OnlyItsOwnDecision(alerts, now, c, kept, a, n);
    KeptIff(ws, now, kept, w);
  }

  /** So an alert over 120 minutes or more is never evaluated if a cleanup ran within the last hour, as it does
      every hour; and one over exactly 60 minutes not at the moment of the cleanup. */
  lemma {:induction false} TwoHourAlertsNeverFire(
    alerts: seq<CachedAlert>, now: int, c: Current, rows: seq<Record>, t: int, a: CachedAlert, n: Notice)
    requires a in alerts && Concerned(a, c) && n.alert == a && Sorted(rows)
    requires Minutes(a) >= 60 && now - t <= (Minutes(a) - 60) * MINUTE
    ensures n !in Handled(alerts, now, c, Cleaned(rows, t))
  {
    hide Handled, Cleaned, Sorted;
    LongAlertsAreKeptOut(alerts, now, c, rows, t, a, n);
  }

  /** With one record every minute an alert over 60 minutes is kept out for up to a minute after each cleanup: the
      only record before its window is the one a cleanup 30 seconds ago deleted. */
  lemma SixtyMinuteAlertKeptOut()
    ensures
      var start, t := -3600 * SECOND, -30 * SECOND;
      var rows := [Tick(-3645 * SECOND, 60 * SECOND, 0, 50.0), Tick(-3645 * SECOND, 60 * SECOND, 1, 50.0)];
      Gate(rows, start, start) && !Gate(Cleaned(rows, t), start, start)
  {
    var start, t := -3600 * SECOND, -30 * SECOND;
    var rows := [Tick(-3645 * SECOND, 60 * SECOND, 0, 50.0), Tick(-3645 * SECOND, 60 * SECOND, 1, 50.0)];
    assert rows[0].created == -3645 * SECOND;
    assert forall i | 0 <= i < |rows| :: rows[i].created == -3645 * SECOND || rows[i].created == -3585 * SECOND;
    KeptOutIff(rows, start, start, t);
  }
}
