/** The alarm state machine of app/rs232_thread.c, which app/rs485_thread.c repeats. */
module Alarm {
  import opened Options

  // app/types.h
  const NORMAL: bv8 := 0x0
  const UP_ALARM_ON: bv8 := 0x1
  const LOW_ALARM_ON: bv8 := 0x2
  const UP_ALARM_OFF: bv8 := 0x11
  const LOW_ALARM_OFF: bv8 := 0x12

  datatype AlarmType = Raise | Discard

  datatype ParamType = Analog | Enum

  /** param_desc_t: limits, and which of them exist. */
  datatype Desc = Desc(paramType: ParamType, alarmEnable: bv32,
                       upLimit: real, upFree: real, lowLimit: real, lowFree: real, updateThreshold: real)
  {
    predicate HasUpLimit() { alarmEnable & 0x01 != 0 }
    predicate HasUpFree() { alarmEnable & 0x02 != 0 }
    predicate HasLowLimit() { alarmEnable & 0x04 != 0 }
    predicate HasLowFree() { alarmEnable & 0x08 != 0 }
  }

  /** The values of a param_value_t. */
  datatype Sample = Sample(paramValue: real, enumValue: nat)

  /** A param_value_t of last_param_value. */
  datatype Last = Last(sample: Sample, status: bv8)

  /** What the shared pools and rings, and the clock, answer during one turn of the
      loop of compare_values: whether each allocation and push succeeds, and whether a
      history record is due. */
  datatype Luck = Luck(msg: bool, first: bool, second: bool, sms: bool, email: bool, timeout: bool, history: bool)

  /** The value the limits are compared with. */
  function Value(d: Desc, s: Sample): real {
    if d.paramType.Analog? then s.paramValue else s.enumValue as real
  }

  /** Limits are strict for analog values and inclusive for enumerations; what frees an
      alarm is strict or inclusive likewise, unless there is no separate value for it. */
  predicate Over(d: Desc, s: Sample) {
    d.HasUpLimit() && (Value(d, s) > d.upLimit || (d.paramType.Enum? && Value(d, s) == d.upLimit))
  }

  predicate Under(d: Desc, s: Sample) {
    d.HasLowLimit() && (Value(d, s) < d.lowLimit || (d.paramType.Enum? && Value(d, s) == d.lowLimit))
  }

  predicate UpperFreed(d: Desc, s: Sample) {
    || !d.HasUpLimit()
    || Value(d, s) < (if d.HasUpFree() then d.upFree else d.upLimit)
    || (d.HasUpFree() && d.paramType.Enum? && Value(d, s) == d.upFree)
  }

  predicate LowerFreed(d: Desc, s: Sample) {
    || !d.HasLowLimit()
    || Value(d, s) > (if d.HasLowFree() then d.lowFree else d.lowLimit)
    || (d.HasLowFree() && d.paramType.Enum? && Value(d, s) == d.lowFree)
  }

  /** The new alarm_status, and alarm_record_flag. */
  function Judge(d: Desc, status: bv8, s: Sample): (r: (bv8, bool)) {
    if status == UP_ALARM_ON then if UpperFreed(d, s) then (UP_ALARM_OFF, true) else (status, false)
    else if status == LOW_ALARM_ON then if LowerFreed(d, s) then (LOW_ALARM_OFF, true) else (status, false)
    else if Under(d, s) then (LOW_ALARM_ON, true)
    else if Over(d, s) then (UP_ALARM_ON, true)
    else (status, false)
  }

  /** Both alarm buffers were obtained, so the alarm is put on the rings. */
  predicate Reaches(luck: Luck) { luck.msg && luck.first && luck.second }

  /** One turn of the loop: the stored value, the alarm attempted, and the alarm_type
      written to the shared real-time data, when the turn gets that far. */
  datatype Turn = Turn(last: Last, attempt: Option<AlarmType>, published: Option<bv8>)

  function Compare(d: Desc, last: Last, s: Sample, luck: Luck): Turn
  {
    var (status, record) := Judge(d, last.status, s);
    var dataRecord := HistoryDue(d, last.sample, s) || luck.timeout;
    if record && !Reaches(luck) then
      Turn(Last(s, last.status), None, None)
    else
      var kept := if record && status & 0x10 != 0 then NORMAL else status;
      var attempt := if !record then None else if kept == NORMAL then Some(Discard) else Some(Raise);
      Turn(Last(s, kept), attempt, if dataRecord && !luck.history then None else Some(kept))
  }

  predicate HistoryDue(d: Desc, last: Sample, s: Sample) {
    if d.paramType.Analog? then
      var change := s.paramValue - last.paramValue;
      (if change < 0.0 then -change else change) > d.updateThreshold
    else s.enumValue != last.enumValue
  }

  /** create_last_param_value_list: the first sample, status NORMAL. */
  function Create(s: Sample): Last { Last(s, NORMAL) }

  // The loop itself, over the list of last values it updates in place.

  class ParamValue {
    var paramValue: real
    var enumValue: nat
    var status: bv8

    constructor (s: Sample)
      ensures View() == Create(s)
    {
      paramValue, enumValue, status := s.paramValue, s.enumValue, NORMAL;
    }

    function View(): Last
      reads this
    {
      Last(Sample(paramValue, enumValue), status)
    }
  }

  /** The tests of an alarm that is on. */
  method TestFree(d: Desc, lastStatus: bv8, s: Sample) returns (alarmStatus: bv8, record: bool)
    requires lastStatus == UP_ALARM_ON || lastStatus == LOW_ALARM_ON
    ensures (alarmStatus, record) == Judge(d, lastStatus, s)
  {
    hide Desc.HasUpLimit, Desc.HasUpFree, Desc.HasLowLimit, Desc.HasLowFree;
    alarmStatus, record := lastStatus, false;
    if lastStatus == UP_ALARM_ON {
      if d.HasUpLimit() {
        if d.HasUpFree() {
          if d.paramType.Analog? {
            if s.paramValue < d.upFree {
              alarmStatus, record := UP_ALARM_OFF, true;
            }
          } else {
            if s.enumValue as real <= d.upFree {
              alarmStatus, record := UP_ALARM_OFF, true;
            }
          }
        } else {
          if d.paramType.Analog? {
            if s.paramValue < d.upLimit {
              alarmStatus, record := UP_ALARM_OFF, true;
            }
          } else {
            if (s.enumValue as real) < d.upLimit {
              alarmStatus, record := UP_ALARM_OFF, true;
            }
          }
        }
      } else {
        alarmStatus, record := UP_ALARM_OFF, true;
      }
    } else {
      if d.HasLowLimit() {
        if d.HasLowFree() {
          if d.paramType.Analog? {
            if s.paramValue > d.lowFree {
              alarmStatus, record := LOW_ALARM_OFF, true;
            }
          } else {
            if s.enumValue as real >= d.lowFree {
              alarmStatus, record := LOW_ALARM_OFF, true;
            }
          }
        } else {
          if d.paramType.Analog? {
            if s.paramValue > d.lowLimit {
              alarmStatus, record := LOW_ALARM_OFF, true;
            }
          } else {
            if s.enumValue as real > d.lowLimit {
              alarmStatus, record := LOW_ALARM_OFF, true;
            }
          }
        }
      } else {
        alarmStatus, record := LOW_ALARM_OFF, true;
      }
    }
  }

  /** The tests of a parameter without an alarm; the lower limit comes last. */
  method TestLimits(d: Desc, lastStatus: bv8, s: Sample) returns (alarmStatus: bv8, record: bool)
    requires lastStatus != UP_ALARM_ON && lastStatus != LOW_ALARM_ON
    ensures (alarmStatus, record) == Judge(d, lastStatus, s)
  {
    hide Desc.HasUpLimit, Desc.HasUpFree, Desc.HasLowLimit, Desc.HasLowFree;
    alarmStatus, record := lastStatus, false;
    if d.HasUpLimit() {
      if d.paramType.Analog? {
        if s.paramValue > d.upLimit {
          alarmStatus, record := UP_ALARM_ON, true;
        }
      } else {
        if s.enumValue as real >= d.upLimit {
          alarmStatus, record := UP_ALARM_ON, true;
        }
      }
    }
    if d.HasLowLimit() {
      if d.paramType.Analog? {
        if s.paramValue < d.lowLimit {
          alarmStatus, record := LOW_ALARM_ON, true;
        }
      } else {
        if s.enumValue as real <= d.lowLimit {
          alarmStatus, record := LOW_ALARM_ON, true;
        }
      }
    }
  }

  /** One turn of the loop of compare_values. */
  method CompareOne(last: ParamValue, d: Desc, s: Sample, luck: Luck)
    returns (attempt: Option<AlarmType>, published: Option<bv8>)
    modifies last
    ensures Turn(last.View(), attempt, published) == Compare(d, old(last.View()), s, luck)
  {
    hide Judge, HistoryDue;
    attempt, published := None, None;
    var dataRecord := HistoryDue(d, last.View().sample, s);
    if luck.timeout {
      dataRecord := true;
    }
    var alarmStatus, record;
    if last.status == UP_ALARM_ON || last.status == LOW_ALARM_ON {
      alarmStatus, record := TestFree(d, last.status, s);
    } else {
      alarmStatus, record := TestLimits(d, last.status, s);
    }
    last.paramValue := s.paramValue;
    last.enumValue := s.enumValue;
    if record {
      if alarmStatus & 0x10 != 0 {
        alarmStatus := NORMAL;
      }
      if !luck.msg || !luck.first || !luck.second {
        return;
      }
      attempt := if alarmStatus == NORMAL then Some(Discard) else Some(Raise);
    }
    last.status := alarmStatus;
    if dataRecord && !luck.history {
      return;
    }
    published := Some(alarmStatus);
  }

  method CompareValues(lastValues: seq<ParamValue>, descs: seq<Desc>, current: seq<Sample>, luck: seq<Luck>)
    returns (attempts: seq<Option<AlarmType>>, published: seq<Option<bv8>>)
    requires |lastValues| == |descs| == |current| == |luck|
    requires forall i, j :: 0 <= i < j < |lastValues| ==> lastValues[i] != lastValues[j]
    modifies lastValues
    ensures |attempts| == |published| == |current|
    ensures forall i :: 0 <= i < |current| ==>
              Turn(lastValues[i].View(), attempts[i], published[i])
              == Compare(descs[i], old(lastValues[i].View()), current[i], luck[i])
  {
    hide Compare;
    attempts, published := [], [];
    for i := 0 to |current|
      invariant |attempts| == |published| == i
      invariant forall j :: 0 <= j < i ==>
                  Turn(lastValues[j].View(), attempts[j], published[j])
                  == Compare(descs[j], old(lastValues[j].View()), current[j], luck[j])
      invariant forall j :: i <= j < |current| ==> lastValues[j].View() == old(lastValues[j].View())
    {
      var attempt, shown := CompareOne(lastValues[i], descs[i], current[i], luck[i]);
      attempts, published := attempts + [attempt], published + [shown];
    }
  }
}
