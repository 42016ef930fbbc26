/** Values of the current and the previous interval per key, and their differences. */
module DeltaTracking {
  import opened Words

  datatype Tracker = Tracker(current: map<string, Word>, previous: map<string, Word>)

  const NewTracker := Tracker(map[], map[])

  /** Starts the next interval: what was measured becomes the past. */
  function Cycled(t: Tracker): Tracker { Tracker(map[], t.current) }

  function WithValue(t: Tracker, id: string, value: Word): Tracker { t.(current := t.current[id := value]) }

  function DeltaIn(t: Tracker, id: string): Word {
    if id in t.current && id in t.previous then Minus(t.current[id], t.previous[id]) else 0
  }

  class DeltaTracker {
    var current: map<string, Word>
    var previous: map<string, Word>

    function State(): Tracker
      reads this
    {
      Tracker(current, previous)
    }

    constructor ()
      ensures State() == NewTracker
    {
      current, previous := map[], map[];
    }

    method Set(id: string, value: Word)
      modifies this
      ensures State() == WithValue(old(State()), id, value)
      ensures current == old(current)[id := value] && previous == old(previous)
    {
      current := current[id := value];
    }

    method Cycle()
      modifies this
      ensures State() == Cycled(old(State())) && current == map[] && previous == old(current)
    {
      previous := current;
      current := map[];
    }

    method Previous(id: string) returns (value: Word, ok: bool)
      ensures ok <==> id in previous
      ensures value == if ok then previous[id] else 0
    {
      if id in previous {
        return previous[id], true;
      }
      return 0, false;
    }

    /** The delta of one key: 0 for a key not measured in both intervals. */
    method Delta(id: string) returns (delta: Word)
      ensures delta == DeltaIn(State(), id)
      ensures delta == if id in current && id in previous then (current[id] - previous[id]) % WORD else 0
    {
      if id !in current {
        return 0;
      }
      if id !in previous {
        return 0;
      }
      delta := Minus(current[id], previous[id]);
    }

    /** All deltas at once agree with asking for each key. */
    method Deltas() returns (deltas: map<string, Word>)
      ensures deltas.Keys == current.Keys
      ensures forall id | id in deltas :: deltas[id] == DeltaIn(State(), id)
      ensures forall id | id in deltas ::
                deltas[id] == if id in previous then (current[id] - previous[id]) % WORD else 0
    {
      deltas := map[];
      var todo := current.Keys;
      while todo != {}
        invariant todo <= current.Keys && deltas.Keys == current.Keys - todo
        invariant forall id | id in deltas :: deltas[id] == DeltaIn(State(), id)
      {
        var id :| id in todo;
        if id in previous {
          deltas := deltas[id := Minus(current[id], previous[id])];
        } else {
          deltas := deltas[id := 0];
        }
        todo := todo - {id};
      }
    }
  }

  // ---------------------------------------------------------------- laws

  /** The tracker after cycles that each measure the key once. */
  function Measured(t: Tracker, id: string, values: seq<Word>): Tracker {
    if values == [] then t
    else WithValue(Cycled(Measured(t, id, values[..|values| - 1])), id, values[|values| - 1])
  }

  /** The deltas of those cycles, summed. */
  function SumOfDeltas(t: Tracker, id: string, values: seq<Word>): nat {
    if values == [] then 0
    else SumOfDeltas(t, id, values[..|values| - 1]) + DeltaIn(Measured(t, id, values), id)
  }

  predicate Rising(first: Word, values: seq<Word>) {
    (values != [] ==> first <= values[0]) && forall i | 0 < i < |values| :: values[i - 1] <= values[i]
  }

  /** Over any number of consecutive cycles that measure a key, the deltas telescope: modulo the word size
      they always add up to the difference of the ends, and exactly so if the values never drop. */
  lemma {:induction false} DeltasTelescope(t: Tracker, id: string, values: seq<Word>)
    requires id in t.current
    ensures id in Measured(t, id, values).current
    ensures (t.current[id] + SumOfDeltas(t, id, values)) % WORD == Measured(t, id, values).current[id]
    ensures Rising(t.current[id], values) ==>
              t.current[id] + SumOfDeltas(t, id, values) == Measured(t, id, values).current[id]
  {
    if values == [] {
      SmallMod(t.current[id]);
    } else {
      var init, v := values[..|values| - 1], values[|values| - 1];
      DeltasTelescope(t, id, init);
      var before := Measured(t, id, init).current[id];
      assert init != [] ==> before == init[|init| - 1];
      assert DeltaIn(Measured(t, id, values), id) == Minus(v, before);
      hide Measured, SumOfDeltas;
      WrapTwice(t.current[id] + SumOfDeltas(t, id, init), Minus(v, before));
      AddMinus(v, before);
      if before <= v { SmallMod(v - before); }
    }
  }
}
