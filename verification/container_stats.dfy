/** Averaging slices of container_stats records: one entry per container name. */
module ContainerStats {
  import opened Words
  import opened Averages

  /** Megabytes in hundredths, small enough that the bytes they stand for fit a word. */
  type Megabytes = n: nat | n * 0x10_0000 / 100 < WORD

  /** One container in a record. sent/recv are byte counts; oldSent/oldRecv are the deprecated
      megabyte fields that older agents filled instead. */
  datatype Container = Container(
    name: string, cpu: nat, mem: nat, sent: Word, recv: Word, oldSent: Megabytes, oldRecv: Megabytes)

  datatype Tally = Tally(cpu: nat, mem: nat, sent: nat, recv: nat)

  datatype Mean = Mean(name: string, cpu: nat, mem: nat, sent: nat, recv: nat)

  const NOTHING := Tally(0, 0, 0, 0)

  function Bytes(m: Megabytes): Word { m * 0x10_0000 / 100 }

  predicate OnlyOldFields(c: Container) {
    c.sent == 0 && c.recv == 0 && (c.oldSent != 0 || c.oldRecv != 0)
  }

  /** What a container adds to the totals. */
  function Usage(c: Container): Tally {
    if OnlyOldFields(c) then Tally(c.cpu, c.mem, Bytes(c.oldSent), Bytes(c.oldRecv))
    else Tally(c.cpu, c.mem, c.sent, c.recv)
  }

  function Plus(a: Tally, b: Tally): Tally {
    Tally(a.cpu + b.cpu, a.mem + b.mem, a.sent + b.sent, a.recv + b.recv)
  }

  /** Everything the containers of this name add up to within one record; nothing if it is absent. */
  function Within(record: seq<Container>, name: string): Tally {
    if record == [] then NOTHING
    else
      var (init, last) := (record[..|record| - 1], record[|record| - 1]);
      if last.name == name then Plus(Within(init, name), Usage(last)) else Within(init, name)
  }

  function Over(records: seq<seq<Container>>, name: string): Tally {
    if records == [] then NOTHING
    else Plus(Over(records[..|records| - 1], name), Within(records[|records| - 1], name))
  }

  predicate Named(record: seq<Container>, name: string) {
    exists i :: 0 <= i < |record| && record[i].name == name
  }

  predicate Seen(records: seq<seq<Container>>, name: string) {
    exists i :: 0 <= i < |records| && Named(records[i], name)
  }

  /** Byte sums are kept in 64 bits. */
  function Wrapped(t: Tally): Tally { t.(sent := t.sent % WORD, recv := t.recv % WORD) }

  function MeanOf(name: string, total: Tally, n: nat): Mean
    requires n > 0
  {
    Mean(name, RoundedNat(total.cpu, n), RoundedNat(total.mem, n), total.sent % WORD / n, total.recv % WORD / n)
  }

  predicate DistinctNames(result: seq<Mean>) {
    forall i, j | 0 <= i < j < |result| :: result[i].name != result[j].name
  }

  /** Exactly one entry per name that occurs, with the mean over all the records. */
  ghost predicate Averaged(records: seq<seq<Container>>, result: seq<Mean>)
    requires records != []
  {
    && DistinctNames(result)
    && (forall i | 0 <= i < |result| ::
          && Seen(records, result[i].name)
          && result[i] == MeanOf(result[i].name, Over(records, result[i].name), |records|))
    && (forall name | Seen(records, name) :: MeanOf(name, Over(records, name), |records|) in result)
  }

  // ---------------------------------------------------------------- the loops

  /** The running totals after some whole records and a part of the next one. */
  ghost predicate Tallied(done: seq<seq<Container>>, part: seq<Container>, sums: map<string, Tally>) {
    && (forall name :: name in sums <==> Seen(done, name) || Named(part, name))
    && (forall name | name in sums :: sums[name] == Wrapped(Plus(Over(done, name), Within(part, name))))
  }

  method AddContainer(
    sums: map<string, Tally>, c: Container, ghost done: seq<seq<Container>>, ghost part: seq<Container>)
    returns (r: map<string, Tally>)
    requires Tallied(done, part, sums)
    ensures Tallied(done, part + [c], r)
  {
    var before := if c.name in sums then sums[c.name] else NOTHING;
    var sentBytes, recvBytes := c.sent, c.recv;
    if sentBytes == 0 && recvBytes == 0 && (c.oldSent != 0 || c.oldRecv != 0) {
      sentBytes, recvBytes := Bytes(c.oldSent), Bytes(c.oldRecv);
    }
    r := sums[c.name := Tally(before.cpu + c.cpu, before.mem + c.mem,
                              (before.sent + sentBytes) % WORD, (before.recv + recvBytes) % WORD)];
    TalliedOneMore(done, part, sums, c, r);
  }

  lemma {:induction false} UnnamedAddsNothing(record: seq<Container>, name: string)
    requires !Named(record, name)
    ensures Within(record, name) == NOTHING
  {
    if record != [] {
      var init := record[..|record| - 1];
      assert record[|record| - 1].name != name;
      assert forall i | 0 <= i < |init| :: init[i] == record[i];
      UnnamedAddsNothing(init, name);
    }
  }

  lemma {:induction false} UnseenAddsNothing(records: seq<seq<Container>>, name: string)
    requires !Seen(records, name)
    ensures Over(records, name) == NOTHING
  {
    if records != [] {
      var init := records[..|records| - 1];
      UnnamedAddsNothing(records[|records| - 1], name);
      assert forall i | 0 <= i < |init| :: init[i] == records[i];
      UnseenAddsNothing(init, name);
    }
  }

  lemma {:induction false} TalliedOneMore(
    done: seq<seq<Container>>, part: seq<Container>, sums: map<string, Tally>, c: Container, r: map<string, Tally>)
    requires Tallied(done, part, sums)
    requires r == sums[c.name := WrappedPlus(if c.name in sums then sums[c.name] else Wrapped(NOTHING), Usage(c))]
    ensures Tallied(done, part + [c], r)
  {
    var all := part + [c];
    hide Over, Usage, Named, Seen, Plus, Within, Wrapped, WrappedPlus;
    forall name ensures Named(all, name) <==> Named(part, name) || name == c.name {
      NamedOneMore(part, c, name);
    }
    forall name | name in r ensures r[name] == Wrapped(Plus(Over(done, name), Within(all, name))) {
      WithinOneMore(done, part, c, name);
      if name == c.name && c.name !in sums {
        UnseenAddsNothing(done, c.name);
        UnnamedAddsNothing(part, c.name);
        PlusNothing(NOTHING);
      }
    }
  }

  lemma PlusNothing(t: Tally)
    ensures Plus(t, NOTHING) == t
  {}

  function WrappedPlus(t: Tally, u: Tally): Tally {
    Tally(t.cpu + u.cpu, t.mem + u.mem, (t.sent + u.sent) % WORD, (t.recv + u.recv) % WORD)
  }

  lemma WithinOneMore(done: seq<seq<Container>>, part: seq<Container>, c: Container, name: string)
    ensures
      var before, after := Plus(Over(done, name), Within(part, name)), Plus(Over(done, name), Within(part + [c], name));
      Wrapped(after) == if name == c.name then WrappedPlus(Wrapped(before), Usage(c)) else Wrapped(before)
  {
    WithinAppend(part, c, name);
    hide Over, Usage, Within;
    if name == c.name {
      WrappedSum(Over(done, name), Within(part, name), Usage(c));
    }
  }

  lemma WithinAppend(part: seq<Container>, c: Container, name: string)
    ensures
      Within(part + [c], name) == if c.name == name then Plus(Within(part, name), Usage(c)) else Within(part, name)
  {
    assert (part + [c])[..|part|] == part;
    hide Usage, Plus;
  }

  lemma WrappedSum(o: Tally, w: Tally, u: Tally)
    ensures Wrapped(Plus(o, Plus(w, u))) == WrappedPlus(Wrapped(Plus(o, w)), u)
  {
    WrapTwice(o.sent + w.sent, u.sent);
    WrapTwice(o.recv + w.recv, u.recv);
  }

  lemma NamedOneMore(part: seq<Container>, c: Container, name: string)
    ensures Named(part + [c], name) <==> Named(part, name) || name == c.name
  {
    var all := part + [c];
    if Named(part, name) {
      var i :| 0 <= i < |part| && part[i].name == name;
      assert all[i].name == name;
    }
    assert all[|part|] == c;
  }

  lemma {:induction false} TalliedNextRecord(
    done: seq<seq<Container>>, record: seq<Container>, sums: map<string, Tally>)
    requires Tallied(done, record, sums)
    ensures Tallied(done + [record], [], sums)
  {
    var all := done + [record];
    assert all[..|done|] == done;
    forall name ensures Seen(all, name) <==> Seen(done, name) || Named(record, name) {
      if Seen(done, name) {
        var i :| 0 <= i < |done| && Named(done[i], name);
        assert all[i] == done[i];
      }
      assert all[|done|] == record;
    }
    hide Seen, Within, Wrapped;
    assert forall name :: Within([], name) == NOTHING by { UnnamedEmpty(); }
    assert forall name :: !Named([], name);
  }

  lemma UnnamedEmpty()
    ensures forall name :: Within([], name) == NOTHING
  {}

  method AverageContainerStatsSlice(records: seq<seq<Container>>) returns (result: seq<Mean>)
    ensures records == [] ==> result == []
    ensures records != [] ==> Averaged(records, result)
  {
    if records == [] {
      return [];
    }
    var sums: map<string, Tally> := map[];
    for i := 0 to |records|
      invariant Tallied(records[..i], [], sums)
    {
      var stats := records[i];
      for j := 0 to |stats|
        invariant Tallied(records[..i], stats[..j], sums)
      {
        assert stats[..j + 1] == stats[..j] + [stats[j]];
        sums := AddContainer(sums, stats[j], records[..i], stats[..j]);
      }
      assert stats[..|stats|] == stats;
      assert records[..i + 1] == records[..i] + [stats];
      TalliedNextRecord(records[..i], stats, sums);
    }
    assert records[..|records|] == records;
    result := Means(sums, |records|, records);
  }

  /** `for _, value := range sums`, in any order of the names. */
  method Means(sums: map<string, Tally>, n: nat, ghost records: seq<seq<Container>>) returns (result: seq<Mean>)
    requires n == |records| > 0 && Tallied(records, [], sums)
    ensures Averaged(records, result)
  {
    hide Wrapped, Plus, Over, Within, Seen, Named, Tallied;
    result := [];
    var todo := sums.Keys;
    while todo != {}
      invariant todo <= sums.Keys
      invariant DistinctNames(result)
      invariant forall i | 0 <= i < |result| :: result[i].name in sums && result[i].name !in todo
      invariant forall i | 0 <= i < |result| :: result[i] == MeanIn(sums, result[i].name, n)
      invariant forall name | name in sums && name !in todo :: MeanIn(sums, name, n) in result
    {
      var name :| name in todo;
      result := result + [MeanIn(sums, name, n)];
      todo := todo - {name};
    }
    MeansAreRight(sums, n, records, result);
  }

  function MeanIn(sums: map<string, Tally>, name: string, n: nat): (m: Mean)
    requires n > 0 && name in sums
    ensures m.name == name
  {
    var v := sums[name];
    Mean(name, RoundedNat(v.cpu, n), RoundedNat(v.mem, n), v.sent / n, v.recv / n)
  }

  lemma MeansAreRight(sums: map<string, Tally>, n: nat, records: seq<seq<Container>>, result: seq<Mean>)
    requires n == |records| > 0 && Tallied(records, [], sums)
    requires DistinctNames(result)
    requires forall i | 0 <= i < |result| :: result[i].name in sums && result[i] == MeanIn(sums, result[i].name, n)
    requires forall name | name in sums :: MeanIn(sums, name, n) in result
    ensures Averaged(records, result)
  {
    hide Over, RoundedNat, DistinctNames, Seen, Named;
    forall name | name in sums ensures MeanIn(sums, name, n) == MeanOf(name, Over(records, name), n) {
      assert Within([], name) == NOTHING;
      PlusNothing(Over(records, name));
    }
    forall name ensures name in sums <==> Seen(records, name) {
      NobodyNamed(name);
    }
    hide MeanOf, MeanIn, Wrapped, Within, Tallied;
  }

  lemma NobodyNamed(name: string)
    ensures !Named([], name)
  {}

  // ---------------------------------------------------------------- laws

  /** A record without the container lowers its mean exactly as a record with zeros would. */
  lemma {:induction false} AbsenceCountsAsZero(
    records: seq<seq<Container>>, record: seq<Container>, name: string, result: seq<Mean>)
    requires Seen(records, name) && !Named(record, name)
    requires Averaged(records + [record], result)
    ensures MeanOf(name, Over(records, name), |records| + 1) in result
  {
    var all := records + [record];
    assert all[..|records|] == records;
    UnnamedAddsNothing(record, name);
    assert Over(all, name) == Over(records, name);
    var i :| 0 <= i < |records| && Named(records[i], name);
    assert all[i] == records[i];
    hide Over, Named;
  }

  lemma {:induction false} OverRemove(records: seq<seq<Container>>, i: nat, name: string)
    requires i < |records|
    ensures Over(records, name) == Plus(Over(records[..i] + records[i + 1..], name), Within(records[i], name))
  {
    var n := |records| - 1;
    var rest := records[..i] + records[i + 1..];
    if i == n {
      assert rest == records[..n];
    } else {
      var init := records[..n];
      OverRemove(init, i, name);
      assert rest[..n - 1] == init[..i] + init[i + 1..];
      assert rest[n - 1] == records[n];
      hide Within;
    }
  }

  lemma {:induction false} RemoveOne(a: seq<seq<Container>>, b: seq<seq<Container>>) returns (i: nat)
    requires multiset(a) == multiset(b) && a != []
    ensures i < |b| && b[i] == a[|a| - 1]
    ensures multiset(b[..i] + b[i + 1..]) == multiset(a[..|a| - 1])
  {
    var n := |a| - 1;
    assert a[n] in multiset(b);
    i :| 0 <= i < |b| && b[i] == a[n];
    assert a == a[..n] + [a[n]];
    assert b == b[..i] + [b[i]] + b[i + 1..];
    var rest := b[..i] + b[i + 1..];
    assert multiset(b) == multiset(rest) + multiset{a[n]};
    assert multiset(a) == multiset(a[..n]) + multiset{a[n]};
    assert multiset(rest) == multiset(b) - multiset{a[n]};
  }

  lemma {:induction false} OverPermuted(a: seq<seq<Container>>, b: seq<seq<Container>>, name: string)
    requires multiset(a) == multiset(b)
    ensures Over(a, name) == Over(b, name)
  {
    if a == [] {
      assert |multiset(b)| == 0;
    } else {
      hide Within;
      var i := RemoveOne(a, b);
      OverPermuted(a[..|a| - 1], b[..i] + b[i + 1..], name);
      OverRemove(b, i, name);
    }
  }

  lemma SeenPermuted(a: seq<seq<Container>>, b: seq<seq<Container>>, name: string)
    requires multiset(a) == multiset(b) && Seen(a, name)
    ensures Seen(b, name)
  {
    var i :| 0 <= i < |a| && Named(a[i], name);
    assert a[i] in multiset(b);
    var j :| 0 <= j < |b| && b[j] == a[i];
  }

  /** The order of the records does not matter: two averages of the same records differ at most in the
      order of their entries. */
  lemma {:induction false} OrderIsIrrelevant(
    a: seq<seq<Container>>, b: seq<seq<Container>>, ra: seq<Mean>, rb: seq<Mean>)
    requires a != [] && b != [] && multiset(a) == multiset(b)
    requires Averaged(a, ra) && Averaged(b, rb)
    ensures multiset(ra) == multiset(rb)
  {
    assert |a| == |multiset(a)| == |b|;
    SameEntries(a, b, ra, rb);
    SameEntries(b, a, rb, ra);
    forall m ensures multiset(ra)[m] == multiset(rb)[m] {
      OnceEach(ra, m);
      OnceEach(rb, m);
    }
  }

  lemma {:induction false} SameEntries(
    a: seq<seq<Container>>, b: seq<seq<Container>>, ra: seq<Mean>, rb: seq<Mean>)
    requires a != [] && b != [] && multiset(a) == multiset(b) && |a| == |b|
    requires Averaged(a, ra) && Averaged(b, rb)
    ensures forall m | m in ra :: m in rb
  {
    hide Over, Seen, MeanOf;
    forall m | m in ra ensures m in rb {
      SeenPermuted(a, b, m.name);
      OverPermuted(a, b, m.name);
    }
  }

  lemma {:induction false} OnceEach(result: seq<Mean>, m: Mean)
    requires DistinctNames(result)
    ensures multiset(result)[m] == if m in result then 1 else 0
  {
    if result != [] {
      var n := |result| - 1;
      var init := result[..n];
      assert result == init + [result[n]];
      OnceEach(init, m);
    }
  }
}
