/** The communication-failure counters of rs232_process in app/rs232_thread.c, one
    pair per protocol; app/rs485_thread.c repeats them. */
module ComFail {
  import opened Options

  /** One exchange with a device: the command was not written, or what calculate_data
      made of the answer. */
  datatype Exchange = WriteFailed | Good | LengthZero | OtherError

  /** com_fail_count and com_fail_flag of one protocol. */
  datatype Counters = Counters(count: nat, flag: int)

  /** The counters after one exchange, and the alarm_status record_com_fail is called
      with, if it is: 1 for a failure, 0 for its end. */
  function Next(c: Counters, e: Exchange): (Counters, Option<int>) {
    match e
    case Good => (Counters(0, 0), if c.flag != 0 then Some(0) else None)
    case LengthZero =>
      if c.flag == 0 then
        if c.count + 1 > 1 then (Counters(c.count + 1, 1), Some(1)) else (Counters(c.count + 1, 0), None)
      else (c, None)
    case _ => (c, None)
  }

  method Turn(comFailCount: array<nat>, comFailFlag: array<int>, i: nat, e: Exchange) returns (report: Option<int>)
    requires i < comFailCount.Length == comFailFlag.Length
    modifies comFailCount, comFailFlag
    ensures (Counters(comFailCount[i], comFailFlag[i]), report)
            == old(Next(Counters(comFailCount[i], comFailFlag[i]), e))
    ensures forall j :: 0 <= j < comFailCount.Length && j != i ==>
              comFailCount[j] == old(comFailCount[j]) && comFailFlag[j] == old(comFailFlag[j])
  {
    report := None;
    if e == Good {
      comFailCount[i] := 0;
      if comFailFlag[i] != 0 {
        comFailFlag[i] := 0;
        report := Some(0);
      }
    } else if e == LengthZero {
      if comFailFlag[i] == 0 {
        comFailCount[i] := comFailCount[i] + 1;
        if comFailCount[i] > 1 {
          comFailFlag[i] := 1;
          report := Some(1);
        }
      }
    }
  }

  function Run(exchanges: seq<Exchange>): (r: (Counters, seq<int>))
    decreases |exchanges|
  {
    if exchanges == [] then (Counters(0, 0), [])
    else
      var (c, reports) := Run(exchanges[..|exchanges| - 1]);
      var (c', report) := Next(c, exchanges[|exchanges| - 1]);
      (c', if report.Some? then reports + [report.value] else reports)
  }

  /** Empty answers since the last good one. */
  function EmptySinceGood(exchanges: seq<Exchange>): nat
    decreases |exchanges|
  {
    if exchanges == [] then 0
    else
      match exchanges[|exchanges| - 1]
      case Good => 0
      case LengthZero => EmptySinceGood(exchanges[..|exchanges| - 1]) + 1
      case _ => EmptySinceGood(exchanges[..|exchanges| - 1])
  }

  /** The flag is up exactly when two answers have been empty since the last good one,
      and the reports alternate: failure, end, failure, ... */
  lemma {:induction false} FlagMeansTwoEmpty(exchanges: seq<Exchange>)
    ensures var (c, reports) := Run(exchanges);
            && (c.flag == if EmptySinceGood(exchanges) >= 2 then 1 else 0)
            && (c.count == if c.flag == 1 then 2 else EmptySinceGood(exchanges))
            && (forall i :: 0 <= i < |reports| ==> reports[i] == if i % 2 == 0 then 1 else 0)
            && |reports| % 2 == c.flag
    decreases |exchanges|
  {
    if exchanges != [] {
      FlagMeansTwoEmpty(exchanges[..|exchanges| - 1]);
    }
  }
}
