/** What whole runs of the alarm state machine guarantee, whatever the pools and rings
    answer. */
module AlarmRuns {
  import opened Alarm
  import opened Options

  /** What one parameter meets in one pass: its limits may have been reloaded. */
  datatype Input = Input(d: Desc, s: Sample, luck: Luck)

  /** The stored value after a run, and the alarms attempted. */
  function Run(first: Sample, run: seq<Input>): (r: (Last, seq<AlarmType>))
    decreases |run|
  {
    if run == [] then (Create(first), [])
    else
      var (last, attempts) := Run(first, run[..|run| - 1]);
      var input := run[|run| - 1];
      var turn := Compare(input.d, last, input.s, input.luck);
      (turn.last, if turn.attempt.Some? then attempts + [turn.attempt.value] else attempts)
  }

  predicate Settled(status: bv8) { status == NORMAL || status == UP_ALARM_ON || status == LOW_ALARM_ON }

  /** One turn keeps the status settled, and attempts an alarm exactly when it changes
      the status: a raise out of NORMAL, a discard back to it. */
  lemma CompareChanges(d: Desc, last: Last, s: Sample, luck: Luck)
    requires Settled(last.status)
    ensures var turn := Compare(d, last, s, luck);
            && Settled(turn.last.status) && turn.last.sample == s
            && (turn.attempt == Some(Raise) <==> last.status == NORMAL && turn.last.status != NORMAL)
            && (turn.attempt == Some(Discard) <==> last.status != NORMAL && turn.last.status == NORMAL)
            && (turn.attempt == None <==> turn.last.status == last.status)
            && (turn.published.Some? ==> turn.published.value == turn.last.status)
            && (turn.attempt.Some? ==> Reaches(luck))
  {
  }

  /** Raise, discard, raise, ... */
  predicate Alternates(attempts: seq<AlarmType>) {
    forall i :: 0 <= i < |attempts| ==> attempts[i] == if i % 2 == 0 then Raise else Discard
  }

  function Count(attempts: seq<AlarmType>, a: AlarmType): nat { multiset(attempts)[a] }

  lemma AlternatesEmpty()
    ensures Alternates([]) && Count([], Raise) == 0 && Count([], Discard) == 0
  {
  }

  lemma AlternatesLonger(attempts: seq<AlarmType>, a: AlarmType)
    requires Alternates(attempts) && a == if |attempts| % 2 == 0 then Raise else Discard
    ensures Alternates(attempts + [a])
    ensures Count(attempts + [a], Raise) == Count(attempts, Raise) + if a.Raise? then 1 else 0
    ensures Count(attempts + [a], Discard) == Count(attempts, Discard) + if a.Discard? then 1 else 0
  {
  }

  /** Under any pattern of exhaustion the attempts alternate, and the status is NORMAL
      exactly when raises and discards are equal in number. */
  lemma {:induction false} AttemptsAlternate(first: Sample, run: seq<Input>)
    ensures var (last, attempts) := Run(first, run);
            && Settled(last.status)
            && Alternates(attempts)
            && (last.status == NORMAL <==> |attempts| % 2 == 0)
            && Count(attempts, Raise) == Count(attempts, Discard) + (if last.status == NORMAL then 0 else 1)
    decreases |run|
  {
    hide Compare, Alternates, Count;
    if run == [] {
      AlternatesEmpty();
    } else {
      var before, input := run[..|run| - 1], run[|run| - 1];
      AttemptsAlternate(first, before);
      var (last, attempts) := Run(first, before);
      CompareChanges(input.d, last, input.s, input.luck);
      var turn := Compare(input.d, last, input.s, input.luck);
      if turn.attempt.Some? {
        AlternatesLonger(attempts, turn.attempt.value);
      }
    }
  }

  // What every turn decides, in the comparisons the limits stand for.

  lemma RunMore(first: Sample, run: seq<Input>, x: Input)
    ensures var (last, attempts) := Run(first, run);
            var turn := Compare(x.d, last, x.s, x.luck);
            && Run(first, run + [x])
                == (turn.last, if turn.attempt.Some? then attempts + [turn.attempt.value] else attempts)
            && last.sample == if run == [] then first else run[|run| - 1].s
  {
    assert (run + [x])[..|run|] == run;
  }

  /** After any run that ends without an alarm: with the buffers in hand, an alarm is
      raised exactly when the value passes a limit that is enabled, strictly if it is
      analog, the lower one before the upper one. */
  lemma RaisedExactly(first: Sample, run: seq<Input>, x: Input)
    requires Run(first, run).0.status == 0x0 && x.luck.msg && x.luck.first && x.luck.second
    ensures var (d, s) := (x.d, x.s);
            var upper :=
              && d.alarmEnable & 0x01 != 0
              && if d.paramType.Analog? then s.paramValue > d.upLimit else s.enumValue as real >= d.upLimit;
            var lower :=
              && d.alarmEnable & 0x04 != 0
              && if d.paramType.Analog? then s.paramValue < d.lowLimit else s.enumValue as real <= d.lowLimit;
            var (last, attempts) := Run(first, run + [x]);
            && last == Last(s, if lower then 0x2 else if upper then 0x1 else 0x0)
            && attempts == Run(first, run).1 + if upper || lower then [Raise] else []
  {
    RunMore(first, run, x);
    hide Run;
  }

  /** After any run that ends in the upper alarm: with the buffers in hand, it is ended
      exactly when its limit is gone or the value is below what frees it, or at it when
      an enumeration has a value that frees it. */
  lemma UpperEndedExactly(first: Sample, run: seq<Input>, x: Input)
    requires Run(first, run).0.status == 0x1 && x.luck.msg && x.luck.first && x.luck.second
    ensures var (d, s) := (x.d, x.s);
            var ended :=
              if d.alarmEnable & 0x01 == 0 then true
              else if d.alarmEnable & 0x02 != 0 then
                if d.paramType.Analog? then s.paramValue < d.upFree else s.enumValue as real <= d.upFree
              else if d.paramType.Analog? then s.paramValue < d.upLimit else s.enumValue as real < d.upLimit;
            var (last, attempts) := Run(first, run + [x]);
            && last == Last(s, if ended then 0x0 else 0x1)
            && attempts == Run(first, run).1 + if ended then [Discard] else []
  {
    RunMore(first, run, x);
    hide Run;
  }

  lemma LowerEndedExactly(first: Sample, run: seq<Input>, x: Input)
    requires Run(first, run).0.status == 0x2 && x.luck.msg && x.luck.first && x.luck.second
    ensures var (d, s) := (x.d, x.s);
            var ended :=
              if d.alarmEnable & 0x04 == 0 then true
              else if d.alarmEnable & 0x08 != 0 then
                if d.paramType.Analog? then s.paramValue > d.lowFree else s.enumValue as real >= d.lowFree
              else if d.paramType.Analog? then s.paramValue > d.lowLimit else s.enumValue as real > d.lowLimit;
            var (last, attempts) := Run(first, run + [x]);
            && last == Last(s, if ended then 0x0 else 0x2)
            && attempts == Run(first, run).1 + if ended then [Discard] else []
  {
    RunMore(first, run, x);
    hide Run;
  }

  /** Without all three buffers only the value is taken over. */
  lemma Starved(first: Sample, run: seq<Input>, x: Input)
    requires !x.luck.msg || !x.luck.first || !x.luck.second
    ensures var (last, attempts) := Run(first, run);
            Run(first, run + [x]) == (Last(x.s, last.status), attempts)
  {
    RunMore(first, run, x);
    AttemptsAlternate(first, run);
    CompareChanges(x.d, Run(first, run).0, x.s, x.luck);
    hide Run, Judge, HistoryDue;
  }

  /** The status is shown in the shared data in every turn, but when a change of it finds
      no buffers, or when a history record finds none: one is due after a timeout, and
      when an enumeration differs from the sample before, or an analog value by more than
      its threshold. */
  lemma PublishedExactly(first: Sample, run: seq<Input>, x: Input)
    ensures var s, was := x.s, if run == [] then first else run[|run| - 1].s;
            var (last, last') := (Run(first, run).0, Run(first, run + [x]).0);
            var due := x.luck.timeout
                       || (if x.d.paramType.Enum? then s.enumValue != was.enumValue
                           else s.paramValue - was.paramValue > x.d.updateThreshold
                                || was.paramValue - s.paramValue > x.d.updateThreshold);
            var reached := x.luck.msg && x.luck.first && x.luck.second;
            var lucky := x.(luck := x.luck.(msg := true, first := true, second := true));
            var blocked := !reached && Run(first, run + [lucky]).0.status != last.status;
            Compare(x.d, last, s, x.luck).published
            == if blocked || (due && !x.luck.history) then None else Some(last'.status)
  {
    var lucky := x.(luck := x.luck.(msg := true, first := true, second := true));
    RunMore(first, run, x);
    RunMore(first, run, lucky);
    AttemptsAlternate(first, run);
    var last := Run(first, run).0;
    CompareChanges(x.d, last, x.s, x.luck);
    CompareChanges(x.d, last, x.s, lucky.luck);
    hide Run;
  }

  // An enumeration is an analog value with limits between the integers.

  predicate Whole(r: real) { r.Floor as real == r }

  predicate WholeLimits(d: Desc) { Whole(d.upLimit) && Whole(d.upFree) && Whole(d.lowLimit) && Whole(d.lowFree) }

  /** Its limits moved by one half, so that strict and inclusive comparison agree. */
  function AsAnalog(x: Input): Input {
    Input(x.d.(paramType := Analog, upLimit := x.d.upLimit - 0.5, upFree := x.d.upFree + 0.5,
               lowLimit := x.d.lowLimit + 0.5, lowFree := x.d.lowFree - 0.5),
          Sample(x.s.enumValue as real, x.s.enumValue), x.luck)
  }

  function AllAnalog(run: seq<Input>): (r: seq<Input>)
    ensures |r| == |run| && forall i :: 0 <= i < |run| ==> r[i] == AsAnalog(run[i])
  {
    if run == [] then [] else AllAnalog(run[..|run| - 1]) + [AsAnalog(run[|run| - 1])]
  }

  lemma HalfApart(n: nat, r: real)
    requires Whole(r)
    ensures (n as real >= r <==> n as real > r - 0.5) && (n as real <= r <==> (n as real) < r + 0.5)
    ensures (n as real > r <==> n as real > r + 0.5) && ((n as real) < r <==> (n as real) < r - 0.5)
  {
    assert (n as real) < r ==> n < r.Floor;
    assert (n as real) > r ==> n > r.Floor;
  }

  lemma SameComparisons(x: Input)
    requires x.d.paramType.Enum? && WholeLimits(x.d)
    ensures var y := AsAnalog(x);
            && (Over(y.d, y.s) <==> Over(x.d, x.s)) && (Under(y.d, y.s) <==> Under(x.d, x.s))
            && (UpperFreed(y.d, y.s) <==> UpperFreed(x.d, x.s)) && (LowerFreed(y.d, y.s) <==> LowerFreed(x.d, x.s))
  {
    hide Whole;
    HalfApart(x.s.enumValue, x.d.upLimit);
    HalfApart(x.s.enumValue, x.d.upFree);
    HalfApart(x.s.enumValue, x.d.lowLimit);
    HalfApart(x.s.enumValue, x.d.lowFree);
  }

  lemma SameTurn(x: Input, last: Last, last': Last)
    requires x.d.paramType.Enum? && WholeLimits(x.d) && last'.status == last.status
    ensures var (turn, turn') := (Compare(x.d, last, x.s, x.luck),
                                  Compare(AsAnalog(x).d, last', AsAnalog(x).s, x.luck));
            turn'.last.status == turn.last.status && turn'.attempt == turn.attempt
  {
    hide Over, Under, UpperFreed, LowerFreed, WholeLimits, HistoryDue;
    SameComparisons(x);
  }

  /** Over any run an enumeration with whole limits has the statuses and attempts of an
      analog parameter whose limits lie one half towards the values that pass them. */
  lemma {:induction false} EnumerationIsAnalog(first: Sample, first': Sample, run: seq<Input>)
    requires forall i :: 0 <= i < |run| ==> run[i].d.paramType.Enum? && WholeLimits(run[i].d)
    ensures Run(first', AllAnalog(run)).0.status == Run(first, run).0.status
    ensures Run(first', AllAnalog(run)).1 == Run(first, run).1
    decreases |run|
  {
    hide Compare, AsAnalog, WholeLimits;
    if run != [] {
      var before, x := run[..|run| - 1], run[|run| - 1];
      EnumerationIsAnalog(first, first', before);
      assert AllAnalog(run)[..|run| - 1] == AllAnalog(before);
      SameTurn(x, Run(first, before).0, Run(first', AllAnalog(before)).0);
      SameLuck(x);
    }
  }

  lemma SameLuck(x: Input)
    ensures AsAnalog(x).luck == x.luck
  {
  }

  // How far a value must travel between two raises of one alarm.

  function Abs(x: real): real { if x < 0.0 then -x else x }

  /** The inputs all carry the limits of `d`. */
  predicate Fixed(d: Desc, run: seq<Input>) { forall i :: 0 <= i < |run| ==> run[i].d == d }

  /** The total variation of the value. */
  function Variation(d: Desc, first: Sample, run: seq<Input>): real
    decreases |run|
  {
    if run == [] then 0.0
    else
      var before := run[..|run| - 1];
      Variation(d, first, before) + Abs(Value(d, run[|run| - 1].s) - Value(d, Run(first, before).0.sample))
  }

  datatype Side = Upper | Lower

  function Status(side: Side): bv8 { if side.Upper? then UP_ALARM_ON else LOW_ALARM_ON }

  /** The value, its limit and what frees the alarm, turned so that the limit is above. */
  function Level(d: Desc, side: Side, s: Sample): real { if side.Upper? then Value(d, s) else -Value(d, s) }

  function Limit(d: Desc, side: Side): real { if side.Upper? then d.upLimit else -d.lowLimit }

  function FreeAt(d: Desc, side: Side): real { if side.Upper? then d.upFree else -d.lowFree }

  /** The limit and the value that frees it both exist, in order. */
  predicate Guarded(d: Desc, side: Side) {
    && FreeAt(d, side) <= Limit(d, side)
    && (if side.Upper? then d.HasUpLimit() && d.HasUpFree() else d.HasLowLimit() && d.HasLowFree())
  }

  /** How often the alarm of that side was raised. */
  function Raises(first: Sample, run: seq<Input>, side: Side): nat
    decreases |run|
  {
    if run == [] then 0
    else
      var before := run[..|run| - 1];
      Raises(first, before, side)
      + if Run(first, before).0.status != Status(side) && Run(first, run).0.status == Status(side) then 1 else 0
  }

  /** There and back between two raises, k - 1 times. */
  function RoundTrips(k: nat, gap: real): real { 2.0 * (k - 1) as real * gap }

  function Travel(k: nat, gap: real): real {
    if k <= 1 then 0.0 else Travel(k - 1, gap) + 2.0 * gap
  }

  lemma {:induction false} TravelIs(k: nat, gap: real)
    ensures k >= 1 ==> Travel(k, gap) == RoundTrips(k, gap)
    decreases k
  {
    if k > 1 {
      TravelIs(k - 1, gap);
      OneMoreTrip((k - 1 - 1) as real, (k - 1) as real, gap);
    } else if k == 1 {
      assert (k - 1) as real == 0.0;
      assert 2.0 * (k - 1) as real == 0.0;
    }
  }

  lemma OneMoreTrip(before: real, after: real, gap: real)
    requires after == before + 1.0
    ensures 2.0 * after * gap == 2.0 * before * gap + 2.0 * gap
  {
    assert 2.0 * after == 2.0 * before + 2.0;
    assert (2.0 * before + 2.0) * gap == 2.0 * before * gap + 2.0 * gap;
  }

  function Above(x: real): real { if x > 0.0 then x else 0.0 }

  /** Since the last raise the value has come at least this far. */
  function Since(d: Desc, side: Side, last: Last, k: nat): real {
    var level := Level(d, side, last.sample);
    if k == 0 then 0.0
    else if last.status == Status(side) then Above(Limit(d, side) - level)
    else Limit(d, side) - FreeAt(d, side) + Above(level - FreeAt(d, side))
  }

  lemma SideTurn(d: Desc, side: Side, last: Last, s: Sample, luck: Luck)
    requires Guarded(d, side) && Settled(last.status)
    ensures var after := Compare(d, last, s, luck).last;
            && after.sample == s
            && (last.status != Status(side) && after.status == Status(side) ==> Level(d, side, s) >= Limit(d, side))
            && (last.status == Status(side) && after.status != Status(side) ==> Level(d, side, s) <= FreeAt(d, side))
  {
    hide Desc.HasUpLimit, Desc.HasUpFree, Desc.HasLowLimit, Desc.HasLowFree;
  }

  lemma {:induction false} VariationBound(d: Desc, side: Side, first: Sample, run: seq<Input>)
    requires Guarded(d, side) && Fixed(d, run)
    ensures var k := Raises(first, run, side);
            && (Run(first, run).0.status == Status(side) ==> k >= 1)
            && Variation(d, first, run)
               >= Travel(k, Limit(d, side) - FreeAt(d, side)) + Since(d, side, Run(first, run).0, k)
    decreases |run|
  {
    hide Compare, Value, Limit, FreeAt, Desc.HasUpLimit, Desc.HasUpFree, Desc.HasLowLimit, Desc.HasLowFree;
    if run != [] {
      var before, input := run[..|run| - 1], run[|run| - 1];
      VariationBound(d, side, first, before);
      AttemptsAlternate(first, before);
      SideTurn(d, side, Run(first, before).0, input.s, input.luck);
    }
  }

  /** A run that raises the upper or the lower alarm k times moves the value by at least
      2 * (k - 1) times the distance between the limit and what frees the alarm. */
  lemma HysteresisBound(d: Desc, side: Side, first: Sample, run: seq<Input>)
    requires Guarded(d, side) && Fixed(d, run) && Raises(first, run, side) >= 1
    ensures Variation(d, first, run) >= RoundTrips(Raises(first, run, side), Limit(d, side) - FreeAt(d, side))
  {
    hide RoundTrips, Travel, Raises, Variation, Run, Fixed, Since;
    VariationBound(d, side, first, run);
    SinceNotNegative(d, side, Run(first, run).0, Raises(first, run, side));
    TravelIs(Raises(first, run, side), Limit(d, side) - FreeAt(d, side));
  }

  lemma SinceNotNegative(d: Desc, side: Side, last: Last, k: nat)
    requires Guarded(d, side)
    ensures Since(d, side, last, k) >= 0.0
  {
  }

  // Settling.

  /** What frees the alarm of that side. */
  predicate Freed(d: Desc, side: Side, s: Sample) { if side.Upper? then UpperFreed(d, s) else LowerFreed(d, s) }

  predicate Beyond(d: Desc, side: Side, s: Sample) { if side.Upper? then Over(d, s) else Under(d, s) }

  function Other(side: Side): Side { if side.Upper? then Lower else Upper }

  /** The sample raises the alarm of that side out of NORMAL; the lower one goes first. */
  predicate Raised(d: Desc, side: Side, s: Sample) { Beyond(d, side, s) && (side.Upper? ==> !Under(d, s)) }

  /** It raises the alarm, does not free it, and frees the other one. */
  predicate Stays(d: Desc, side: Side, s: Sample) {
    Raised(d, side, s) && !Freed(d, side, s) && Freed(d, Other(side), s)
  }

  function After(d: Desc, status: bv8, s: Sample): bv8 { Compare(d, Last(s, status), s, LUCKY).last.status }

  const LUCKY: Luck := Luck(true, true, true, true, true, false, true)

  /** With both buffers in hand a turn depends on the status and the sample alone. */
  lemma TurnIs(d: Desc, side: Side, last: Last, s: Sample, luck: Luck)
    requires Settled(last.status) && Reaches(luck)
    ensures var after := Compare(d, last, s, luck).last.status;
            && after == After(d, last.status, s) && Settled(after)
            && (last.status == Status(side) ==> after == if Freed(d, side, s) then NORMAL else Status(side))
            && (last.status == Status(Other(side)) ==>
                  after == if Freed(d, Other(side), s) then NORMAL else Status(Other(side)))
            && (last.status == NORMAL ==> (after == Status(side) <==> Raised(d, side, s)))
            && (last.status == NORMAL && !Raised(d, side, s) && !Raised(d, Other(side), s) ==> after == NORMAL)
  {
    hide Value, Over, Under, UpperFreed, LowerFreed, HistoryDue;
  }

  /** A status that some run leaves. */
  function SampleFor(side: Side): Input {
    var d := Desc(Analog, if side.Upper? then 0x01 else 0x04, 0.0, 0.0, 0.0, 0.0, 0.0);
    Input(d, Sample(if side.Upper? then 1.0 else -1.0, 0), LUCKY)
  }

  function RunTo(side: Side): seq<Input> { [SampleFor(side)] }

  lemma RunToStatus(first: Sample, side: Side)
    ensures Run(first, RunTo(side)).0.status == Status(side)
    ensures Run(first, []).0.status == NORMAL
  {
    assert RunTo(side)[..0] == [];
    var input := SampleFor(side);
    assert input.d.HasUpLimit() == side.Upper? && input.d.HasLowLimit() == side.Lower?;
    hide Desc.HasUpLimit, Desc.HasLowLimit, HistoryDue;
  }

  lemma RunTwo(first: Sample, run: seq<Input>, x: Input, y: Input)
    requires Reaches(x.luck) && Reaches(y.luck)
    ensures Settled(Run(first, run).0.status)
    ensures Run(first, run + [x, y]).0.status == After(y.d, After(x.d, Run(first, run).0.status, x.s), y.s)
  {
    hide Compare, After;
    AttemptsAlternate(first, run);
    assert run + [x, y] == (run + [x]) + [y];
    assert (run + [x])[..|run|] == run && ((run + [x]) + [y])[..|run| + 1] == run + [x];
    var last := Run(first, run).0;
    var next := Compare(x.d, last, x.s, x.luck).last;
    TurnIs(x.d, Upper, last, x.s, x.luck);
    TurnIs(y.d, Upper, next, y.s, y.luck);
  }

  /** Two samples in a row that stay beyond a limit leave its alarm on, after any run. */
  lemma TwoSamplesRaise(d: Desc, side: Side, first: Sample, run: seq<Input>, x: Input, y: Input)
    requires x.d == y.d == d && Reaches(x.luck) && Reaches(y.luck)
    requires Stays(d, side, x.s) && Stays(d, side, y.s)
    ensures Run(first, run + [x, y]).0.status == Status(side)
  {
    hide Compare, Run, After, Freed, Raised;
    RunTwo(first, run, x, y);
    var status := Run(first, run).0.status;
    TurnIs(d, side, Last(x.s, status), x.s, LUCKY);
    TurnIs(d, side, Last(y.s, After(d, status, x.s)), y.s, LUCKY);
  }

  /** For a sample that stays, and is beyond the limit, that is exactly when they do so
      after every run. */
  lemma TwoSamplesRaiseIff(d: Desc, side: Side, x: Input, y: Input)
    requires x.d == y.d == d && x.s == y.s && Reaches(x.luck) && Reaches(y.luck) && Beyond(d, side, x.s)
    ensures (forall first, run :: Run(first, run + [x, y]).0.status == Status(side)) <==> Stays(d, side, x.s)
  {
    hide Compare, Run, After, Freed, Raised, Status;
    if Stays(d, side, x.s) {
      forall first, run ensures Run(first, run + [x, y]).0.status == Status(side) {
        TwoSamplesRaise(d, side, first, run, x, y);
      }
    } else {
      Unsettled(d, side, x, y);
    }
  }

  lemma Unsettled(d: Desc, side: Side, x: Input, y: Input)
    requires x.d == y.d == d && x.s == y.s && Reaches(x.luck) && Reaches(y.luck)
    requires Beyond(d, side, x.s) && !Stays(d, side, x.s)
    ensures var run := if Freed(d, Other(side), x.s) || !Raised(d, side, x.s) then [] else RunTo(Other(side));
            Run(x.s, run + [x, y]).0.status != Status(side)
  {
    hide Compare, Run, After, Freed;
    var s := x.s;
    var run := if Freed(d, Other(side), s) || !Raised(d, side, s) then [] else RunTo(Other(side));
    RunToStatus(s, Other(side));
    RunTwo(s, run, x, y);
    var status := Run(s, run).0.status;
    TurnIs(d, side, Last(s, status), s, LUCKY);
    TurnIs(d, Other(side), Last(s, status), s, LUCKY);
    TurnIs(d, side, Last(s, After(d, status, s)), s, LUCKY);
    TurnIs(d, Other(side), Last(s, After(d, status, s)), s, LUCKY);
  }

  predicate AllEnabled(d: Desc) { d.HasUpLimit() && d.HasUpFree() && d.HasLowLimit() && d.HasLowFree() }

  /** The limit lies beyond what frees its alarm, and frees the other. */
  predicate Ordered(d: Desc, side: Side) {
    if side.Upper? then d.lowFree <= d.upLimit && d.lowLimit <= d.upLimit && d.upFree <= d.upLimit
    else d.lowLimit <= d.upFree && d.lowLimit <= d.lowFree
  }

  /** With all four limits, every analog value beyond a limit keeps its alarm on exactly
      when the limits are in order. */
  lemma OrderedIff(d: Desc, side: Side)
    requires AllEnabled(d) && d.paramType.Analog?
    ensures Ordered(d, side) <==> forall v: real :: Beyond(d, side, Sample(v, 0)) ==> Stays(d, side, Sample(v, 0))
  {
    hide Desc.HasUpLimit, Desc.HasUpFree, Desc.HasLowLimit, Desc.HasLowFree;
    if !Ordered(d, side) {
      var between := if side.Upper?
        then (d.upLimit + Max(d.lowFree, Max(d.lowLimit, d.upFree))) / 2.0
        else (d.lowLimit - Max(-d.upFree, -d.lowFree)) / 2.0;
      assert Beyond(d, side, Sample(between, 0));
    }
  }

  function Max(x: real, y: real): real { if x < y then y else x }

  // A sample that does not change.

  /** It raises an alarm and frees it. */
  predicate Chatters(d: Desc, s: Sample) {
    (Raised(d, Upper, s) && Freed(d, Upper, s)) || (Raised(d, Lower, s) && Freed(d, Lower, s))
  }

  function Repeat(x: Input, n: nat): seq<Input> { seq(n, _ => x) }

  lemma OneMore(first: Sample, run: seq<Input>, x: Input, n: nat)
    requires Reaches(x.luck)
    ensures var (last, attempts) := Run(first, run + Repeat(x, n));
            var (last', attempts') := Run(first, run + Repeat(x, n + 1));
            && Settled(last.status) && last'.status == After(x.d, last.status, x.s)
            && |attempts'| == |attempts| + if last'.status == last.status then 0 else 1
  {
    hide Compare, After;
    var before := run + Repeat(x, n);
    assert run + Repeat(x, n + 1) == before + [x];
    assert (before + [x])[..|before|] == before;
    AttemptsAlternate(first, before);
    CompareChanges(x.d, Run(first, before).0, x.s, x.luck);
    TurnIs(x.d, Upper, Run(first, before).0, x.s, x.luck);
  }

  lemma RaisedOne(d: Desc, s: Sample)
    ensures !Raised(d, Upper, s) || !Raised(d, Lower, s)
  {
  }

  /** From NORMAL a sample that stays attempts an alarm in every turn, for ever, when it
      both raises and frees one; otherwise it attempts one at most. */
  lemma {:induction false} SteadySample(first: Sample, run: seq<Input>, x: Input, n: nat)
    requires Reaches(x.luck) && Run(first, run).0.status == NORMAL
    ensures var (last, attempts) := Run(first, run + Repeat(x, n));
            var more := |attempts| - |Run(first, run).1|;
            && (if Chatters(x.d, x.s) then more == n else 0 <= more <= 1)
            && (last.status == NORMAL ||
                (Raised(x.d, Upper, x.s) && last.status == UP_ALARM_ON) ||
                (Raised(x.d, Lower, x.s) && last.status == LOW_ALARM_ON))
            && (!Chatters(x.d, x.s) && more == 1 ==> last.status != NORMAL)
    decreases n
  {
    hide Compare, Run, After, Raised, Freed;
    if n == 0 {
      assert run + Repeat(x, 0) == run;
    } else {
      SteadySample(first, run, x, n - 1);
      OneMore(first, run, x, n - 1);
      RaisedOne(x.d, x.s);
      var status := Run(first, run + Repeat(x, n - 1)).0.status;
      TurnIs(x.d, Upper, Last(x.s, status), x.s, LUCKY);
      TurnIs(x.d, Lower, Last(x.s, status), x.s, LUCKY);
    }
  }

  /** One sample strictly between the values that free the alarms ends either alarm. */
  lemma InsideSettles(d: Desc, last: Last, s: Sample, luck: Luck)
    requires AllEnabled(d) && d.lowLimit <= d.lowFree && d.upFree <= d.upLimit
    requires Settled(last.status) && Reaches(luck) && d.lowFree < Value(d, s) < d.upFree
    ensures Compare(d, last, s, luck).last.status == NORMAL
  {
    hide Desc.HasUpLimit, Desc.HasUpFree, Desc.HasLowLimit, Desc.HasLowFree;
  }

  /** An alarm whose limit is taken away ends with the next sample, whatever it is. */
  lemma DisabledSettles(d: Desc, side: Side, last: Last, s: Sample, luck: Luck)
    requires last.status == Status(side) && Reaches(luck)
    requires if side.Upper? then !d.HasUpLimit() else !d.HasLowLimit()
    ensures Compare(d, last, s, luck).last.status == NORMAL
  {
    hide Desc.HasUpLimit, Desc.HasUpFree, Desc.HasLowLimit, Desc.HasLowFree;
  }
}
