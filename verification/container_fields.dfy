/** The averages of container stats, field by field over the records. */
module ContainerFields {
  import opened Words
  import opened Averages
  import opened ContainerStats

  function CpuIn(record: seq<Container>, name: string): nat {
    if record == [] then 0
    else
      var c := record[|record| - 1];
      CpuIn(record[..|record| - 1], name) + if c.name == name then c.cpu else 0
  }

  function MemIn(record: seq<Container>, name: string): nat {
    if record == [] then 0
    else
      var c := record[|record| - 1];
      MemIn(record[..|record| - 1], name) + if c.name == name then c.mem else 0
  }

  /** Bytes sent within one record by the containers of this name; a container with no bytes either way, but
      megabytes, counts with its megabytes. */
  function SentIn(record: seq<Container>, name: string): nat {
    if record == [] then 0
    else
      var c := record[|record| - 1];
      SentIn(record[..|record| - 1], name)
      + if c.name != name then 0
        else if c.sent == 0 && c.recv == 0 && (c.oldSent != 0 || c.oldRecv != 0) then c.oldSent * 1_048_576 / 100
        else c.sent
  }

  function RecvIn(record: seq<Container>, name: string): nat {
    if record == [] then 0
    else
      var c := record[|record| - 1];
      RecvIn(record[..|record| - 1], name)
      + if c.name != name then 0
        else if c.sent == 0 && c.recv == 0 && (c.oldSent != 0 || c.oldRecv != 0) then c.oldRecv * 1_048_576 / 100
        else c.recv
  }

  lemma {:induction false} WithinIs(record: seq<Container>, name: string)
    ensures Within(record, name) ==
            Tally(CpuIn(record, name), MemIn(record, name), SentIn(record, name), RecvIn(record, name))
  {
    if record != [] {
      WithinIs(record[..|record| - 1], name);
    }
  }

  /** One figure per record. */
  function Column(records: seq<seq<Container>>, name: string, figure: (seq<Container>, string) -> nat): seq<nat> {
    seq(|records|, i requires 0 <= i < |records| => figure(records[i], name))
  }

  lemma {:induction false} OverIs(records: seq<seq<Container>>, name: string)
    ensures Over(records, name).cpu == SumOf(Column(records, name, CpuIn))
    ensures Over(records, name).mem == SumOf(Column(records, name, MemIn))
    ensures Over(records, name).sent == SumOf(Column(records, name, SentIn))
    ensures Over(records, name).recv == SumOf(Column(records, name, RecvIn))
  {
    if records != [] {
      var n := |records| - 1;
      OverIs(records[..n], name);
      WithinIs(records[n], name);
      ColumnInit(records, name, CpuIn);
      ColumnInit(records, name, MemIn);
      ColumnInit(records, name, SentIn);
      ColumnInit(records, name, RecvIn);
      hide Column, Within, CpuIn, MemIn, SentIn, RecvIn;
    }
  }

  lemma ColumnInit(records: seq<seq<Container>>, name: string, figure: (seq<Container>, string) -> nat)
    requires records != []
    ensures
      var n, c := |records| - 1, Column(records, name, figure);
      |c| == n + 1 && c[..n] == Column(records[..n], name, figure) && c[n] == figure(records[n], name)
  {}

  /** Every entry holds the means of its own columns over all the records: CPU and memory rounded to hundredths, the
      bytes summed in 64 bits and truncated. Sent bytes are those sent, received bytes those received. */
  lemma {:induction false} ContainerMeans(records: seq<seq<Container>>, result: seq<Mean>, i: nat)
    requires records != [] && Averaged(records, result) && i < |result|
    ensures
      var e, n := result[i], |records|;
      var (cpu, mem) := (SumOf(Column(records, e.name, CpuIn)), SumOf(Column(records, e.name, MemIn)));
      && e.cpu == (2 * cpu + n) / (2 * n) && e.mem == (2 * mem + n) / (2 * n)
      && e.sent == SumOf(Column(records, e.name, SentIn)) % 0x1_0000_0000_0000_0000 / n
      && e.recv == SumOf(Column(records, e.name, RecvIn)) % 0x1_0000_0000_0000_0000 / n
  {
    OverIs(records, result[i].name);
    hide Over, Column, SumOf, Seen;
  }

  /** There is one entry for every name that occurs in any record, and no other. */
  lemma {:induction false} ContainersOnce(records: seq<seq<Container>>, result: seq<Mean>, name: string)
    requires records != [] && Averaged(records, result)
    ensures (exists r, c :: r in records && c in r && c.name == name) <==> exists e :: e in result && e.name == name
    ensures forall i, j | 0 <= i < j < |result| :: result[i].name != result[j].name
  {
    hide Over;
    if r, c :| r in records && c in r && c.name == name {
      var i :| 0 <= i < |records| && records[i] == r;
      var j :| 0 <= j < |r| && r[j] == c;
      assert Named(records[i], name);
      var e := MeanOf(name, Over(records, name), |records|);
      assert e in result && e.name == name;
    }
    if e :| e in result && e.name == name {
      assert Seen(records, name);
      var i :| 0 <= i < |records| && Named(records[i], name);
      var j :| 0 <= j < |records[i]| && records[i][j].name == name;
      assert records[i] in records && records[i][j] in records[i];
    }
  }
}
