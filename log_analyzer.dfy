/** The web-log analyzer: three counter arrays (hour of day, day of month, month of year) filled
    by one pass over the log reader's entries, and read-only queries over them. */
module Analyzer {
  import opened Counts
  import opened LogEntries

  /** How a Java method call ends: with a value, or with an ArrayIndexOutOfBoundsException
      naming the index that was read. */
  datatype Outcome = Returned(value: int) | IndexOutOfBounds(index: int)

  class LogAnalyzer {
    var hourCounts: array<int>
    var dayCounts: array<int>
    var monthCounts: array<int>
    /** Name of the file the log reader opened. */
    const logFile: string
    /** Entries the log reader has not yet yielded: its hasNext() is `pending != []`
        and its next() removes and returns `pending[0]`. */
    var pending: seq<LogEntry>
    /** Every entry an analysis pass has taken from the reader since construction, in order. */
    ghost var consumed: seq<LogEntry>

    /** Counter array a has the slots of family p, and slot i counts the consumed entries
        that fall in it. */
    ghost predicate Tallies(a: array<int>, p: Period)
      reads this, a
    {
      a.Length == Slots(p) &&
      forall i :: 0 <= i < a.Length ==> a[i] == Tally(consumed, p, i)
    }

    ghost predicate Valid()
      reads this, hourCounts, dayCounts, monthCounts
    {
      hourCounts != dayCounts && hourCounts != monthCounts && dayCounts != monthCounts &&
      (forall e :: e in consumed ==> InRange(e)) &&
      Tallies(hourCounts, Hour) && Tallies(dayCounts, Day) && Tallies(monthCounts, Month)
    }

    /** The no-argument constructor: zeroed counters, and a reader over "demo.log",
        whose entries are demoLog. */
    constructor Demo(demoLog: seq<LogEntry>)
      ensures Valid()
      ensures fresh(hourCounts) && fresh(dayCounts) && fresh(monthCounts)
      ensures hourCounts.Length == 24 && forall i :: 0 <= i < 24 ==> hourCounts[i] == 0
      ensures dayCounts.Length == 31 && forall i :: 0 <= i < 31 ==> dayCounts[i] == 0
      ensures monthCounts.Length == 12 && forall i :: 0 <= i < 12 ==> monthCounts[i] == 0
      ensures logFile == "demo.log" && pending == demoLog && consumed == []
    {
      hourCounts := new int[24](_ => 0);
      dayCounts := new int[31](_ => 0);
      monthCounts := new int[12](_ => 0);
      logFile := "demo.log";
      pending := demoLog;
      consumed := [];
    }

    /** The constructor taking a file name: zeroed counters, and a reader over fileName,
        whose entries are log. */
    constructor FromFile(fileName: string, log: seq<LogEntry>)
      ensures Valid()
      ensures fresh(hourCounts) && fresh(dayCounts) && fresh(monthCounts)
      ensures hourCounts.Length == 24 && forall i :: 0 <= i < 24 ==> hourCounts[i] == 0
      ensures dayCounts.Length == 31 && forall i :: 0 <= i < 31 ==> dayCounts[i] == 0
      ensures monthCounts.Length == 12 && forall i :: 0 <= i < 12 ==> monthCounts[i] == 0
      ensures logFile == fileName && pending == log && consumed == []
    {
      hourCounts := new int[24](_ => 0);
      dayCounts := new int[31](_ => 0);
      monthCounts := new int[12](_ => 0);
      logFile := fileName;
      pending := log;
      consumed := [];
    }

    /** Drain the reader, adding one to the hour, day and month slot of every entry.
        The entry's fields are used directly as indices, so each must be in range. */
    method AnalyzeData()
      requires Valid()
      requires forall e :: e in pending ==> InRange(e)
      modifies this, hourCounts, dayCounts, monthCounts
      ensures Valid()
      ensures hourCounts == old(hourCounts) && dayCounts == old(dayCounts)
      ensures monthCounts == old(monthCounts)
      ensures pending == [] && consumed == old(consumed) + old(pending)
      ensures forall i :: 0 <= i < hourCounts.Length ==>
                hourCounts[i] == old(hourCounts[i]) + Tally(old(pending), Hour, i)
      ensures forall i :: 0 <= i < dayCounts.Length ==>
                dayCounts[i] == old(dayCounts[i]) + Tally(old(pending), Day, i)
      ensures forall i :: 0 <= i < monthCounts.Length ==>
                monthCounts[i] == old(monthCounts[i]) + Tally(old(pending), Month, i)
    {
      while pending != []
        invariant Valid()
        invariant hourCounts == old(hourCounts) && dayCounts == old(dayCounts)
        invariant monthCounts == old(monthCounts)
        invariant forall e :: e in pending ==> InRange(e)
        invariant consumed + pending == old(consumed) + old(pending)
        decreases |pending|
      {
        var entry := pending[0];
        assert InRange(entry);
        pending := pending[1..];
        ghost var before := consumed;
        consumed := consumed + [entry];
        assert consumed[..|consumed| - 1] == before;
        var hour := entry.hour;
        hourCounts[hour] := hourCounts[hour] + 1;
        var day := entry.day;
        dayCounts[day] := dayCounts[day] + 1;
        var month := entry.month;
        monthCounts[month] := monthCounts[month] + 1;
      }
      assert consumed == old(consumed) + old(pending);
      forall i | 0 <= i
        ensures Tally(consumed, Hour, i) == Tally(old(consumed), Hour, i) + Tally(old(pending), Hour, i)
        ensures Tally(consumed, Day, i) == Tally(old(consumed), Day, i) + Tally(old(pending), Day, i)
        ensures Tally(consumed, Month, i) == Tally(old(consumed), Month, i) + Tally(old(pending), Month, i)
      {
        TallyAppend(old(consumed), old(pending), Hour, i);
        TallyAppend(old(consumed), old(pending), Day, i);
        TallyAppend(old(consumed), old(pending), Month, i);
      }
    }

    /** Total of the hourly counters: the number of entries analysed so far. */
    method NumberOfAccesses() returns (total: int)
      requires Valid()
      ensures total == Sum(hourCounts[..])
      ensures total == |consumed|
    {
      total := 0;
      for hour := 0 to hourCounts.Length
        invariant total == Sum(hourCounts[..hour])
      {
        SumPrefix(hourCounts[..], hour);
        assert hourCounts[..hour + 1] == hourCounts[..][..hour + 1];
        total := total + hourCounts[hour];
      }
      assert hourCounts[..hourCounts.Length] == hourCounts[..];
      assert hourCounts[..] == TallyRow(consumed, Hour);
      TallyTotal(consumed, Hour);
    }

    /** Total of the monthly counters divided by the number of monthly slots (12), truncated.
        The total is never negative, so Java's division toward zero agrees with Dafny's `/`. */
    method AverageAccessesPerMonth() returns (average: int)
      requires Valid()
      ensures average == Sum(monthCounts[..]) / monthCounts.Length
      ensures average == |consumed| / 12
      ensures 12 * average <= |consumed| < 12 * (average + 1)
    {
      var totalCounts := 0;
      var totalMonths := 0;
      for month := 0 to monthCounts.Length
        invariant totalCounts == Sum(monthCounts[..month])
        invariant totalMonths == month
      {
        SumPrefix(monthCounts[..], month);
        assert monthCounts[..month + 1] == monthCounts[..][..month + 1];
        totalCounts := totalCounts + monthCounts[month];
        totalMonths := totalMonths + 1;
      }
      assert monthCounts[..monthCounts.Length] == monthCounts[..];
      assert monthCounts[..] == TallyRow(consumed, Month);
      TallyTotal(consumed, Month);
      average := totalCounts / totalMonths;
    }

    /** The first hour with the most accesses. */
    method BusiestHour() returns (busiest: int)
      requires Valid()
      ensures IsFirstMax(hourCounts[..], busiest)
    {
      busiest := FirstMaxIndex(hourCounts);
    }

    /** The first hour with the fewest accesses. */
    method QuietestHour() returns (quietest: int)
      requires Valid()
      ensures IsFirstMin(hourCounts[..], quietest)
    {
      quietest := FirstMinIndex(hourCounts);
    }

    /** The first day slot with the most accesses. */
    method BusiestDay() returns (busiest: int)
      requires Valid()
      ensures IsFirstMax(dayCounts[..], busiest)
    {
      busiest := FirstMaxIndex(dayCounts);
    }

    /** The first day slot with the fewest accesses. */
    method QuietestDay() returns (quietest: int)
      requires Valid()
      ensures IsFirstMin(dayCounts[..], quietest)
    {
      quietest := FirstMinIndex(dayCounts);
    }

    /** The first month slot with the most accesses. */
    method BusiestMonth() returns (busiest: int)
      requires Valid()
      ensures IsFirstMax(monthCounts[..], busiest)
    {
      busiest := FirstMaxIndex(monthCounts);
    }

    /** The first month slot with the fewest accesses. */
    method QuietestMonth() returns (quietest: int)
      requires Valid()
      ensures IsFirstMin(monthCounts[..], quietest)
    {
      quietest := FirstMinIndex(monthCounts);
    }

    /** busiestTwoHours as written: the second read of the window starting at hour 23 is
        hourCounts[24], one past the end, so every call ends in an out-of-bounds exception. */
    method BusiestTwoHoursAsWritten() returns (outcome: Outcome)
      requires Valid()
      ensures outcome == IndexOutOfBounds(hourCounts.Length)
    {
      var busiest := 23;
      var firstPlace := hourCounts[0] + hourCounts[23];
      var hour := 0;
      outcome := Returned(busiest);
      while hour < hourCounts.Length && outcome.Returned?
        invariant 0 <= hour <= hourCounts.Length
        invariant outcome.Returned? ==> hour < hourCounts.Length
        invariant outcome.IndexOutOfBounds? ==> outcome == IndexOutOfBounds(hourCounts.Length)
        decreases hourCounts.Length - hour, outcome.Returned?
      {
        if hour + 1 >= hourCounts.Length {
          // Java checks the index of hourCounts[hour + 1] before reading it
          outcome := IndexOutOfBounds(hour + 1);
        } else {
          if hourCounts[hour] + hourCounts[hour + 1] > firstPlace {
            busiest := hour;
          }
          hour := hour + 1;
          outcome := Returned(busiest);
        }
      }
    }

    /** busiestTwoHours with the window read wrapped, hourCounts[(hour + 1) % 24]. The running
        best firstPlace is never updated, so the result is the last hour whose window exceeds
        the wrapping window 23-0, or 23 when none does. */
    method BusiestTwoHours() returns (busiest: int)
      requires Valid()
      ensures IsLastAboveBaseline(hourCounts[..], busiest)
    {
      busiest := 23;
      var firstPlace := hourCounts[0] + hourCounts[23];
      for hour := 0 to hourCounts.Length
        invariant 0 <= busiest < 24
        invariant busiest != 23 ==> busiest < hour && PairSum(hourCounts[..], busiest) > firstPlace
        invariant busiest == 23 ==> forall h :: 0 <= h < hour ==> PairSum(hourCounts[..], h) <= firstPlace
        invariant forall h :: busiest < h < hour ==> PairSum(hourCounts[..], h) <= firstPlace
      {
        if hourCounts[hour] + hourCounts[(hour + 1) % 24] > firstPlace {
          busiest := hour;
        }
      }
    }

    /** busiestTwoHours with the wrapped read and with the running best updated on every
        improvement: the start of a busiest two-hour window. */
    method BusiestTwoHoursPeak() returns (busiest: int)
      requires Valid()
      ensures IsPeakPair(hourCounts[..], busiest)
    {
      busiest := 23;
      var firstPlace := hourCounts[0] + hourCounts[23];
      for hour := 0 to hourCounts.Length
        invariant 0 <= busiest < 24
        invariant firstPlace == PairSum(hourCounts[..], busiest)
        invariant busiest != 23 ==> busiest < hour && PairSum(hourCounts[..], 23) < firstPlace
        invariant forall h :: 0 <= h < hour ==> PairSum(hourCounts[..], h) <= firstPlace
        invariant busiest != 23 ==> forall h :: 0 <= h < busiest ==> PairSum(hourCounts[..], h) < firstPlace
      {
        if hourCounts[hour] + hourCounts[(hour + 1) % 24] > firstPlace {
          firstPlace := hourCounts[hour] + hourCounts[(hour + 1) % 24];
          busiest := hour;
        }
      }
    }
  }

  /** A caller that analyses a log, then calls the analysis a second time on the exhausted
      reader: the second pass finds no entries, so the total is the log's length, not twice it. */
  method AnalyzeTwice(log: seq<LogEntry>) returns (total: int)
    requires forall e :: e in log ==> InRange(e)
    ensures total == |log|
  {
    var analyzer := new LogAnalyzer.FromFile("access.log", log);
    analyzer.AnalyzeData();
    assert analyzer.consumed == log;
    analyzer.AnalyzeData();
    assert analyzer.consumed == log;
    total := analyzer.NumberOfAccesses();
  }
}
