/** The main loop's gating rule: fetch once per UTC hour, and only once the
    clock has been set. The time source is a parameter. */
module Schedule {
  import opened ApiTypes
  import opened Http
  import opened Json
  import opened Fetch

  const SecondsPerHour: int := 3600

  /** Clock readings at or below one day mean the clock is not yet set. */
  const ClockSetAfter: int := 24 * 3600

  /** The remembered hour before the first fetch; no hour of the day. */
  const UnsetHour: int := 99

  /** The one project the loop watches. */
  const WatchedProject: Int32 := 163680

  /** `tm_hour` of `gmtime_r`. Dafny's division floors for a positive
      divisor, as the calendar does for times before the epoch. */
  function UtcHour(now: int): (h: int)
    ensures 0 <= h < 24
  {
    (now / SecondsPerHour) % 24
  }

  /** The loop condition: the clock is set and the hour differs from the last
      fetched one. */
  predicate ShouldFetch(lastHour: int, now: int)
    ensures ShouldFetch(lastHour, now) ==> now > ClockSetAfter && 0 <= UtcHour(now) < 24
    ensures !(0 <= lastHour < 24) && now > ClockSetAfter ==> ShouldFetch(lastHour, now)
  {
    now > ClockSetAfter && lastHour != UtcHour(now)
  }

  /** The remembered hour after one iteration. */
  function Tick(lastHour: int, now: int): (next: int)
    ensures next == lastHour || ShouldFetch(lastHour, now)
    ensures ShouldFetch(lastHour, now) ==> next == UtcHour(now) && next != lastHour
  {
    if ShouldFetch(lastHour, now) then UtcHour(now) else lastHour
  }

  /** How the peer answers one iteration's fetch. */
  datatype Server = Server(connectSucceeds: bool, lines: seq<string>, peekByte: int, body: ParseOutcome)

  /** Each iteration builds a new, unconnected client. */
  function FreshClient(s: Server): Client
  {
    Client(false, s.connectSucceeds, s.lines, s.peekByte, s.body, 0, "")
  }

  /** What an iteration reports: nothing, or a record and whether it counts
      as a success. */
  datatype Report = Idle | Reported(project: ProjectRecord, success: bool)

  datatype Step = Step(lastHour: int, report: Report)

  /** The API key, up to its terminating NUL, leaves the watched project's
      path inside the 75-byte buffer (`WatchedPathFits`). */
  predicate KeyFits(key: string)
  {
    |CStr(key)| <= 46
  }

  /** One pass of `loop`. A fetch asks for the watched project and is a
      success exactly when its error code is zero. */
  function LoopStep(lastHour: int, now: int, server: Server, key: string): (step: Step)
    requires KeyFits(key)
    ensures step.report.Reported? <==> ShouldFetch(lastHour, now)
    ensures step.lastHour == Tick(lastHour, now)
    ensures step.report.Reported? ==>
              && step.report.project == GetProject(FreshClient(server), WatchedProject, key).project
              && (step.report.success <==> Code(step.report.project.apiError) == 0)
              && (step.report.success <==> step.report.project.apiError == None)
  {
    if now > ClockSetAfter && lastHour != UtcHour(now) then
      WatchedPathFits(key);
      var hproject := GetProject(FreshClient(server), WatchedProject, key).project;
      Step(UtcHour(now), Reported(hproject, !Truthy(hproject.apiError)))
    else
      Step(lastHour, Idle)
  }

  /** The watched project's path leaves room for keys of up to 46 characters. */
  lemma WatchedPathFits(key: string)
    ensures PathFits(WatchedProject, key) <==> |CStr(key)| <= 46
  {
    Decimal.FormatNatWidth(163680);
    assert Decimal.Width(163680) == 6;
    PathFitsIff(WatchedProject, key);
  }

  /** No fetch happens while the clock is unset. */
  lemma NoFetchWhileClockUnset(lastHour: int, now: int, server: Server, key: string)
    requires KeyFits(key)
    requires now <= ClockSetAfter
    ensures LoopStep(lastHour, now, server, key) == Step(lastHour, Idle)
  {
  }

  /** The first iteration with a set clock always fetches: the initial hour 99
      is no hour of the day. */
  lemma FirstSetClockFetches(now: int, server: Server, key: string)
    requires KeyFits(key)
    requires now > ClockSetAfter
    ensures LoopStep(UnsetHour, now, server, key).report.Reported?
    ensures LoopStep(UnsetHour, now, server, key).lastHour == UtcHour(now)
  {
  }

  /** Two consecutive iterations in the same UTC hour fetch at most once. */
  lemma SameHourFetchesOnce(lastHour: int, t1: int, t2: int, s1: Server, s2: Server, key: string)
    requires KeyFits(key)
    requires UtcHour(t1) == UtcHour(t2)
    ensures var first := LoopStep(lastHour, t1, s1, key);
            var second := LoopStep(first.lastHour, t2, s2, key);
            !(first.report.Reported? && second.report.Reported?)
  {
  }

  /** Number of fetches over a sequence of clock readings. */
  function FetchCount(lastHour: int, times: seq<int>): nat
    decreases |times|
  {
    if |times| == 0 then 0
    else (if ShouldFetch(lastHour, times[0]) then 1 else 0) + FetchCount(Tick(lastHour, times[0]), times[1..])
  }

  /** The remembered hour after a sequence of clock readings. */
  function HourAfter(lastHour: int, times: seq<int>): int
    decreases |times|
  {
    if |times| == 0 then lastHour else HourAfter(Tick(lastHour, times[0]), times[1..])
  }

  /** Over any run of iterations within one UTC hour there is at most one
      fetch, and none at all when that hour was already fetched. */
  lemma {:induction false} AtMostOncePerHour(lastHour: int, times: seq<int>, h: int)
    requires forall i :: 0 <= i < |times| ==> UtcHour(times[i]) == h
    ensures FetchCount(lastHour, times) <= 1
    ensures lastHour == h ==> FetchCount(lastHour, times) == 0
    decreases |times|
  {
    if |times| > 0 {
      var next := Tick(lastHour, times[0]);
      assert forall i :: 0 <= i < |times[1..]| ==> UtcHour(times[1..][i]) == h by {
        forall i | 0 <= i < |times[1..]| ensures UtcHour(times[1..][i]) == h {
          assert times[1..][i] == times[i + 1];
        }
      }
      AtMostOncePerHour(next, times[1..], h);
      if ShouldFetch(lastHour, times[0]) {
        assert next == h;
      }
    }
  }

  /** While the clock stays unset nothing is fetched and the initial hour is
      kept. */
  lemma {:induction false} NothingBeforeClockSet(lastHour: int, times: seq<int>)
    requires forall i :: 0 <= i < |times| ==> times[i] <= ClockSetAfter
    ensures FetchCount(lastHour, times) == 0
    ensures HourAfter(lastHour, times) == lastHour
    decreases |times|
  {
    if |times| > 0 {
      assert forall i :: 0 <= i < |times[1..]| ==> times[1..][i] <= ClockSetAfter by {
        forall i | 0 <= i < |times[1..]| ensures times[1..][i] <= ClockSetAfter {
          assert times[1..][i] == times[i + 1];
        }
      }
      NothingBeforeClockSet(lastHour, times[1..]);
    }
  }

  /** After a run the remembered hour is the initial one or the hour of an
      iteration that fetched. */
  lemma {:induction false} RememberedHourWasFetched(lastHour: int, times: seq<int>)
    ensures var last := HourAfter(lastHour, times);
            last == lastHour
            || exists i :: 0 <= i < |times|
                 && ShouldFetch(HourAfter(lastHour, times[..i]), times[i])
                 && last == UtcHour(times[i])
    decreases |times|
  {
    if |times| > 0 {
      var next := Tick(lastHour, times[0]);
      RememberedHourWasFetched(next, times[1..]);
      var last := HourAfter(next, times[1..]);
      if last != next {
        var k :| 0 <= k < |times[1..]|
                 && ShouldFetch(HourAfter(next, times[1..][..k]), times[1..][k])
                 && last == UtcHour(times[1..][k]);
        assert times[..k + 1][0] == times[0];
        assert times[..k + 1][1..] == times[1..][..k];
        assert HourAfter(lastHour, times[..k + 1]) == HourAfter(next, times[1..][..k]);
        assert times[1..][k] == times[k + 1];
      } else if next != lastHour {
        assert times[..0] == [];
        assert ShouldFetch(HourAfter(lastHour, times[..0]), times[0]);
      }
    }
  }
}
