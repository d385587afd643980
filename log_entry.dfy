/** Access-log entries as the log-file reader yields them, and how many of them fall in each
    counter slot. */
module LogEntries {
  import opened Counts

  /** One access-log record: the hour, day and month fields the reader extracts from a line. */
  datatype LogEntry = LogEntry(hour: int, day: int, month: int)

  /** The three counter families of the analyzer. */
  datatype Period = Hour | Day | Month

  /** Number of slots in the counter array of a family. */
  function Slots(p: Period): nat
  {
    match p
    case Hour => 24
    case Day => 31
    case Month => 12
  }

  /** The slot of family p that entry e increments: its field used directly as an index. */
  function Key(e: LogEntry, p: Period): int
  {
    match p
    case Hour => e.hour
    case Day => e.day
    case Month => e.month
  }

  /** Each field of e is a valid index into its counter array. */
  predicate InRange(e: LogEntry)
  {
    0 <= e.hour < 24 && 0 <= e.day < 31 && 0 <= e.month < 12
  }

  lemma KeyInRange(e: LogEntry, p: Period)
    requires InRange(e)
    ensures 0 <= Key(e, p) < Slots(p)
  {
  }

  /** Number of entries of es that fall in slot i of family p. */
  function Tally(es: seq<LogEntry>, p: Period, i: int): (n: nat)
    ensures n <= |es|
  {
    if es == [] then 0
    else Tally(es[..|es| - 1], p, i) + (if Key(es[|es| - 1], p) == i then 1 else 0)
  }

  /** Tallies over two stretches of the log add up. */
  lemma {:induction false} TallyAppend(a: seq<LogEntry>, b: seq<LogEntry>, p: Period, i: int)
    ensures Tally(a + b, p, i) == Tally(a, p, i) + Tally(b, p, i)
  {
    if b == [] {
      assert a + b == a;
    } else {
      var n := |b| - 1;
      assert (a + b)[..|a + b| - 1] == a + b[..n];
      assert (a + b)[|a + b| - 1] == b[n];
      TallyAppend(a, b[..n], p, i);
    }
  }

  /** An entry that does not carry index i leaves slot i's tally unchanged. */
  lemma {:induction false} TallyMissing(es: seq<LogEntry>, p: Period, i: int)
    requires forall e :: e in es ==> Key(e, p) != i
    ensures Tally(es, p, i) == 0
  {
    if es != [] {
      var n := |es| - 1;
      assert forall e :: e in es[..n] ==> e in es;
      TallyMissing(es[..n], p, i);
    }
  }

  /** The counter array of family p that a fresh analyzer would hold after consuming es. */
  function TallyRow(es: seq<LogEntry>, p: Period): (row: seq<int>)
    ensures |row| == Slots(p)
    ensures forall i :: 0 <= i < |row| ==> 0 <= row[i] <= |es|
  {
    seq(Slots(p), i => Tally(es, p, i))
  }

  /** When every entry falls in some slot, the slots of a family count every entry exactly once. */
  lemma {:induction false} TallyTotal(es: seq<LogEntry>, p: Period)
    requires forall e :: e in es ==> InRange(e)
    ensures Sum(TallyRow(es, p)) == |es|
  {
    if es == [] {
      assert TallyRow(es, p) == seq(Slots(p), _ => 0);
      ZeroSum(Slots(p));
    } else {
      var n := |es| - 1;
      var front, last := es[..n], es[n];
      assert forall e :: e in front ==> e in es;
      TallyTotal(front, p);
      var k := Key(last, p);
      KeyInRange(last, p);
      var row := TallyRow(front, p);
      assert TallyRow(es, p) == row[k := row[k] + 1];
      SumBump(row, k);
    }
  }

  lemma {:induction false} ZeroSum(n: nat)
    ensures Sum(seq(n, _ => 0)) == 0
  {
    if n > 0 {
      assert seq(n, _ => 0)[..n - 1] == seq(n - 1, _ => 0);
      ZeroSum(n - 1);
    }
  }
}
