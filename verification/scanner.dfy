/**
 * The conjunction scanner: a one-minute cursor runs over the requested window, and at each
 * minute the Fortune point is computed, its house located, and every tracked body that passes
 * the conjunction gate produces one emitted line.
 *
 * The ephemeris (body longitudes, house cusps and Ascendant for the observer's location) is
 * an input: a function from a minute to what the ephemeris reports for that minute.
 */
module Scanner {
  import opened Wrappers
  import opened Angles
  import opened Houses
  import opened Conjunction

  /** The seven tracked bodies. */
  datatype Body = Sun | Moon | Mercury | Venus | Mars | Jupiter | Saturn

  /** The fixed order in which the bodies are visited at every minute. */
  const Bodies: seq<Body> := [Sun, Moon, Mercury, Venus, Mars, Jupiter, Saturn]

  /** A body's place in the visiting order. */
  function Rank(b: Body): (r: nat)
    ensures r < |Bodies| && Bodies[r] == b
  {
    match b
    case Sun => 0
    case Moon => 1
    case Mercury => 2
    case Venus => 3
    case Mars => 4
    case Jupiter => 5
    case Saturn => 6
  }

  /** Every body is tracked, and Rank gives each body's place in the visiting order. */
  lemma BodiesInOrder()
    ensures forall b :: b in Bodies
    ensures forall i :: 0 <= i < |Bodies| ==> Rank(Bodies[i]) == i
  {
    forall b: Body
      ensures b in Bodies
    {
      assert Bodies[Rank(b)] == b;
    }
  }

  /** What the ephemeris reports for one minute: body longitudes, house cusps and the Ascendant. */
  datatype Sky = Sky(longitude: Body -> real, cusps: seq<real>, ascendant: real)

  /** Minutes are counted as integers from an arbitrary origin. */
  type Ephemeris = int -> Sky

  /** The ephemeris reports every body longitude in [0, 360). */
  ghost predicate LongitudesInCircle(eph: Ephemeris) {
    forall u: int, b: Body :: InCircle(eph(u).longitude(b))
  }

  const MinutesPerDay: int := 1440

  /** The ephemeris reports a cusp list of an accepted length for minute `u`. */
  predicate MinuteOk(eph: Ephemeris, u: int) {
    CuspCountOk(eph(u).cusps)
  }

  /** One emitted line, as a record: the minute, the Fortune point and its house, and the conjoined body. */
  datatype Event = Event(moment: int, fortune: real, house: Option<nat>, body: Body, longitude: real, orb: real)

  /**
   * The outcome of a scan: the lines emitted, in order, and the error that stopped the scan,
   * if any. Lines are streamed, so those emitted before the error stand.
   */
  datatype ScanResult = ScanResult(events: seq<Event>, failure: Option<CuspError>)

  /** The Fortune point of a minute. */
  function Fortune(sky: Sky): real {
    FortuneLongitude(sky.longitude(Sun), sky.longitude(Moon), sky.ascendant)
  }

  /** The house of the Fortune point of a minute whose cusp list is accepted. */
  function FortuneHouse(sky: Sky): Option<nat>
    requires CuspCountOk(sky.cusps)
  {
    FindHouse(Fortune(sky), sky.cusps).value
  }

  /** One entry of `get_planet_positions`: a tracked body and its longitude at the minute. */
  datatype Position = Position(body: Body, longitude: real)

  /**
   * `get_planet_positions`: the longitude of every tracked body, one entry per body, in the
   * fixed body order.
   */
  function Positions(sky: Sky): (r: seq<Position>)
    ensures forall b :: Position(b, sky.longitude(b)) in r
    ensures forall p :: p in r ==> p.longitude == sky.longitude(p.body)
    ensures RankAscending(r)
  {
    var r := seq(|Bodies|, i requires 0 <= i < |Bodies| => Position(Bodies[i], sky.longitude(Bodies[i])));
    assert forall b :: r[Rank(b)] == Position(b, sky.longitude(b));
    assert forall i :: 0 <= i < |r| ==> Rank(r[i].body) == i by {
      BodiesInOrder();
      forall i | 0 <= i < |r|
        ensures Rank(r[i].body) == i
      {
        assert r[i].body == Bodies[i];
      }
    }
    r
  }

  /** The record of one emitted line: the minute, the Fortune point and its house, and the body. */
  function Record(t: int, fortune: real, house: Option<nat>, p: Position): Event {
    Event(t, fortune, house, p.body, p.longitude, Orb(fortune, p.longitude))
  }

  /** The line for a body at a minute, given the house found for the Fortune point. */
  function Line(t: int, sky: Sky, house: Option<nat>, b: Body): Event {
    Record(t, Fortune(sky), house, Position(b, sky.longitude(b)))
  }

  /**
   * A line is the one its minute prints: the minute's cusp list is accepted, the line carries
   * the Fortune point's house, and its body passes the gate for the mode, with the Fortune
   * point, longitude and orb of that minute.
   */
  predicate Sound(mode: string, eph: Ephemeris, e: Event) {
    var sky := eph(e.moment);
    && MinuteOk(eph, e.moment)
    && e.house == FortuneHouse(sky)
    && e.longitude == sky.longitude(e.body)
    && e.fortune == Fortune(sky)
    && e.orb == Orb(e.fortune, e.longitude)
    && Emits(mode, e.fortune, e.longitude)
  }

  /** `e1` comes before `e2`: an earlier minute, or the same minute and an earlier body. */
  predicate Before(e1: Event, e2: Event) {
    e1.moment < e2.moment || (e1.moment == e2.moment && Rank(e1.body) < Rank(e2.body))
  }

  predicate Chronological(events: seq<Event>) {
    forall i, j :: 0 <= i < j < |events| ==> Before(events[i], events[j])
  }

  /** The positions are listed in strictly increasing body order. */
  predicate RankAscending(ps: seq<Position>) {
    forall i, j :: 0 <= i < j < |ps| ==> Rank(ps[i].body) < Rank(ps[j].body)
  }

  /**
   * The loop over the positions at one minute: the lines of the bodies that pass the gate,
   * in the order the positions are listed, and nothing for the others.
   */
  function BodyEvents(t: int, fortune: real, house: Option<nat>, mode: string, ps: seq<Position>): seq<Event> {
    if ps == [] then []
    else
      var rest := BodyEvents(t, fortune, house, mode, ps[1..]);
      if Emits(mode, fortune, ps[0].longitude) then
        [Record(t, fortune, house, ps[0])] + rest
      else
        rest
  }

  /**
   * The body loop emits exactly the lines of the listed positions that pass the gate: nothing
   * for a position that fails it, and its line for one that passes.
   */
  lemma {:induction false} BodyEventsSpec(t: int, fortune: real, house: Option<nat>, mode: string, ps: seq<Position>)
    ensures forall e :: e in BodyEvents(t, fortune, house, mode, ps) ==>
              && Position(e.body, e.longitude) in ps
              && e == Record(t, fortune, house, Position(e.body, e.longitude))
              && Emits(mode, fortune, e.longitude)
    ensures forall p :: p in ps && Emits(mode, fortune, p.longitude) ==>
              Record(t, fortune, house, p) in BodyEvents(t, fortune, house, mode, ps)
  {
    if ps != [] {
      BodyEventsSpec(t, fortune, house, mode, ps[1..]);
      forall p | p in ps && p != ps[0]
        ensures p in ps[1..]
      {
        var k :| 0 <= k < |ps| && ps[k] == p;
        assert ps[1..][k - 1] == p;
      }
    }
  }

  /** Listing the positions in increasing body order gives the lines of one minute in increasing order. */
  lemma {:induction false} BodyEventsOrdered(t: int, fortune: real, house: Option<nat>, mode: string, ps: seq<Position>)
    requires RankAscending(ps)
    ensures Chronological(BodyEvents(t, fortune, house, mode, ps))
  {
    if ps != [] {
      var rest := BodyEvents(t, fortune, house, mode, ps[1..]);
      BodyEventsOrdered(t, fortune, house, mode, ps[1..]);
      if Emits(mode, fortune, ps[0].longitude) {
        var x := Record(t, fortune, house, ps[0]);
        BodyEventsSpec(t, fortune, house, mode, ps[1..]);
        forall e | e in rest
          ensures Before(x, e)
        {
          var k :| 0 <= k < |ps[1..]| && ps[1..][k] == Position(e.body, e.longitude);
          assert ps[k + 1].body == e.body;
        }
        ChronologicalCons(x, rest);
      }
    }
  }

  /** A line before every line of an ordered list can be put in front of it. */
  lemma ChronologicalCons(x: Event, rest: seq<Event>)
    requires Chronological(rest)
    requires forall e :: e in rest ==> Before(x, e)
    ensures Chronological([x] + rest)
  {
    forall i, j | 0 <= i < j < |[x] + rest|
      ensures Before(([x] + rest)[i], ([x] + rest)[j])
    {
      if i == 0 {
        assert ([x] + rest)[j] == rest[j - 1];
        assert rest[j - 1] in rest;
      } else {
        assert Before(rest[i - 1], rest[j - 1]);
      }
    }
  }

  /**
   * One minute of the scan: the Fortune point's house is located first, which fails on a cusp
   * list of the wrong length; otherwise the body loop gives the minute's lines.
   */
  function MomentEvents(t: int, sky: Sky, mode: string): (r: Result<seq<Event>, CuspError>)
    ensures r.Failure? <==> !CuspCountOk(sky.cusps)
    ensures r.Failure? ==> r.error == CuspCount(|sky.cusps|)
  {
    if CuspCountOk(sky.cusps) then Success(BodyEvents(t, Fortune(sky), FortuneHouse(sky), mode, Positions(sky)))
    else Failure(CuspCount(|sky.cusps|))
  }

  /** A minute fails exactly as `find_house` does on its cusp list, with the same error. */
  lemma MomentFailsAsFindHouse(t: int, sky: Sky, mode: string)
    ensures MomentEvents(t, sky, mode).Failure? <==> FindHouse(Fortune(sky), sky.cusps).Failure?
    ensures MomentEvents(t, sky, mode).Failure? ==>
              MomentEvents(t, sky, mode).error == FindHouse(Fortune(sky), sky.cusps).error
  {
  }

  /**
   * The lines of an accepted minute: exactly one line for each tracked body that passes the
   * gate, each stamped with the minute, in the fixed body order.
   */
  lemma MomentEventsSpec(t: int, sky: Sky, mode: string)
    requires CuspCountOk(sky.cusps)
    ensures Chronological(MomentEvents(t, sky, mode).value)
    ensures forall e :: e in MomentEvents(t, sky, mode).value ==>
              e.moment == t && e == Line(t, sky, FortuneHouse(sky), e.body)
              && Emits(mode, e.fortune, e.longitude)
    ensures forall b :: Emits(mode, Fortune(sky), sky.longitude(b)) ==>
              Line(t, sky, FortuneHouse(sky), b) in MomentEvents(t, sky, mode).value
  {
    var ps := Positions(sky);
    BodyEventsSpec(t, Fortune(sky), FortuneHouse(sky), mode, ps);
    BodyEventsOrdered(t, Fortune(sky), FortuneHouse(sky), mode, ps);
  }

  /** An accepted cusp list always places the Fortune point in a house from 1 to 12. */
  lemma FortuneHouseKnown(sky: Sky)
    requires CuspCountOk(sky.cusps)
    ensures FortuneHouse(sky).Some? && 1 <= FortuneHouse(sky).value <= HouseCount
  {
    FindHouseTotal(Fortune(sky), sky.cusps);
  }

  /** Every line of every accepted minute names the Fortune point's house, a number from 1 to 12. */
  lemma MomentHouseKnown(t: int, sky: Sky, mode: string)
    requires CuspCountOk(sky.cusps)
    ensures forall e :: e in MomentEvents(t, sky, mode).value ==>
              e.house.Some? && 1 <= e.house.value <= HouseCount
  {
    var house := FortuneHouse(sky);
    FortuneHouseKnown(sky);
    MomentEventsSpec(t, sky, mode);
    forall e | e in MomentEvents(t, sky, mode).value
      ensures e.house == house
    {
      assert e == Line(t, sky, house, e.body);
    }
  }

  /** Lines of one minute followed by lines of later minutes stay in order. */
  lemma ChronologicalAppend(a: seq<Event>, b: seq<Event>, t: int)
    requires Chronological(a) && Chronological(b)
    requires forall e :: e in a ==> e.moment == t
    requires forall e :: e in b ==> e.moment > t
    ensures Chronological(a + b)
  {
    forall i, j | 0 <= i < j < |a + b|
      ensures Before((a + b)[i], (a + b)[j])
    {
      if j < |a| {
        assert Before(a[i], a[j]);
      } else if i >= |a| {
        assert Before(b[i - |a|], b[j - |a|]);
      } else {
        assert (a + b)[i] in a && (a + b)[j] in b;
      }
    }
  }

  /** What one minute of the scan yields: its lines, or the error that stops the scan. */
  type Outcome = Result<seq<Event>, CuspError>

  /**
   * The minute loop from minute `t` through minute `end`, inclusive, given what each minute
   * yields: each minute's lines in turn, stopping at the first minute that fails.
   */
  function Run(minute: int -> Outcome, t: int, end: int): ScanResult
    decreases end - t
  {
    if t > end then ScanResult([], None)
    else
      match minute(t)
      case Failure(e) => ScanResult([], Some(e))
      case Success(es) =>
        var rest := Run(minute, t + 1, end);
        ScanResult(es + rest.events, rest.failure)
  }

  /** The loop runs to the end of the window exactly when no minute in it fails. */
  lemma {:induction false} RunFailsIff(minute: int -> Outcome, t: int, end: int)
    ensures Run(minute, t, end).failure.None? <==> forall u :: t <= u <= end ==> minute(u).Success?
    decreases end - t
  {
    if t <= end && minute(t).Success? {
      RunFailsIff(minute, t + 1, end);
    }
  }

  /** Every line of the loop is a line of some minute of the window that did not fail. */
  lemma {:induction false} RunEventsFrom(minute: int -> Outcome, t: int, end: int)
    ensures forall e :: e in Run(minute, t, end).events ==>
              exists u :: t <= u <= end && minute(u).Success? && e in minute(u).value
    decreases end - t
  {
    if t <= end && minute(t).Success? {
      RunEventsFrom(minute, t + 1, end);
    }
  }

  /** When the loop runs to the end, it emits every line of every minute of the window. */
  lemma {:induction false} RunCollects(minute: int -> Outcome, t: int, end: int, u: int)
    requires Run(minute, t, end).failure.None?
    requires t <= u <= end
    ensures minute(u).Success?
    ensures forall e :: e in minute(u).value ==> e in Run(minute, t, end).events
    decreases end - t
  {
    if u > t {
      RunCollects(minute, t + 1, end, u);
    }
  }

  /**
   * A failing minute stops the loop at the first minute that fails: the loop reports that
   * minute's error, and its lines are exactly those of the loop that ends just before it.
   */
  lemma {:induction false} RunStopsAtFirstFailure(minute: int -> Outcome, t: int, end: int, u: int)
    requires t <= u <= end
    requires minute(u).Failure?
    requires forall v :: t <= v < u ==> minute(v).Success?
    ensures Run(minute, t, end).failure == Some(minute(u).error)
    ensures forall e :: e in Run(minute, t, end).events ==>
              exists v :: t <= v < u && minute(v).Success? && e in minute(v).value
    ensures Run(minute, t, u - 1).failure.None?
    ensures Run(minute, t, end).events == Run(minute, t, u - 1).events
    decreases u - t
  {
    if t < u {
      RunStopsAtFirstFailure(minute, t + 1, end, u);
    }
  }

  /** Minutes whose own lines are stamped with the minute and in order give lines in order overall. */
  lemma {:induction false} RunChronological(minute: int -> Outcome, t: int, end: int)
    requires forall u :: minute(u).Success? ==> Chronological(minute(u).value)
    requires forall u, e :: minute(u).Success? && e in minute(u).value ==> e.moment == u
    ensures Chronological(Run(minute, t, end).events)
    decreases end - t
  {
    if t <= end && minute(t).Success? {
      RunChronological(minute, t + 1, end);
      RunEventsFrom(minute, t + 1, end);
      ChronologicalAppend(minute(t).value, Run(minute, t + 1, end).events, t);
    }
  }

  /**
   * Two loops whose minutes fail alike, where every line of a minute of the first is a line
   * of that minute of the second, stop alike, and the first emits no line the second does not.
   */
  lemma {:induction false} RunMonotone(f: int -> Outcome, g: int -> Outcome, t: int, end: int)
    requires forall u :: f(u).Failure? <==> g(u).Failure?
    requires forall u :: f(u).Failure? ==> f(u).error == g(u).error
    requires forall u, e :: f(u).Success? && e in f(u).value ==> e in g(u).value
    ensures Run(f, t, end).failure == Run(g, t, end).failure
    ensures forall e :: e in Run(f, t, end).events ==> e in Run(g, t, end).events
    decreases end - t
  {
    if t <= end && f(t).Success? {
      RunMonotone(f, g, t + 1, end);
    }
  }

  /** The lines gathered before minute `t`, followed by what the loop from `t` yields, make up the whole loop. */
  predicate Accounted(minute: int -> Outcome, start: int, t: int, end: int, events: seq<Event>) {
    var rest := Run(minute, t, end);
    Run(minute, start, end) == ScanResult(events + rest.events, rest.failure)
  }

  /** A minute that does not fail moves its lines from the rest of the loop to the lines gathered. */
  lemma AccountedStep(minute: int -> Outcome, start: int, t: int, end: int, events: seq<Event>)
    requires t <= end && Accounted(minute, start, t, end, events)
    requires minute(t).Success?
    ensures Accounted(minute, start, t + 1, end, events + minute(t).value)
  {
    var rest := Run(minute, t + 1, end);
    assert events + minute(t).value + rest.events == events + (minute(t).value + rest.events);
  }

  /** A failing minute ends the loop with the lines gathered so far and that minute's error. */
  lemma AccountedFailure(minute: int -> Outcome, start: int, t: int, end: int, events: seq<Event>)
    requires t <= end && Accounted(minute, start, t, end, events)
    requires minute(t).Failure?
    ensures Run(minute, start, end) == ScanResult(events, Some(minute(t).error))
  {
    assert events + [] == events;
  }

  /** Past the end of the window nothing is left, so the lines gathered are the loop's lines. */
  lemma AccountedDone(minute: int -> Outcome, start: int, t: int, end: int, events: seq<Event>)
    requires t > end && Accounted(minute, start, t, end, events)
    ensures Run(minute, start, end) == ScanResult(events, None)
  {
    assert events + [] == events;
  }

  /**
   * The `while current_time <= end_date` loop: the cursor starts at `start` and advances one
   * minute at a time while it is not past `end`; a failing minute aborts the loop.
   * `visited` lists the minutes the loop body was entered for.
   */
  method RunLoop(minute: int -> Outcome, start: int, end: int) returns (result: ScanResult, visited: seq<int>)
    ensures result == Run(minute, start, end)
    ensures forall i :: 0 <= i < |visited| ==> visited[i] == start + i
    ensures result.failure.None? ==> |visited| == (if start <= end then end - start + 1 else 0)
    ensures result.failure.Some? ==>
              && |visited| > 0
              && minute(visited[|visited| - 1]).Failure?
              && forall i :: 0 <= i < |visited| - 1 ==> minute(visited[i]).Success?
  {
    var current := start;
    var events: seq<Event> := [];
    visited := [];
    while current <= end
      invariant start <= current && (current <= end + 1 || current == start)
      invariant |visited| == current - start
      invariant forall i :: 0 <= i < |visited| ==> visited[i] == start + i
      invariant forall i :: 0 <= i < |visited| ==> minute(visited[i]).Success?
      invariant Accounted(minute, start, current, end, events)
      decreases end - current
    {
      visited := visited + [current];
      var outcome := minute(current);
      if outcome.Failure? {
        AccountedFailure(minute, start, current, end, events);
        result := ScanResult(events, Some(outcome.error));
        return;
      }
      AccountedStep(minute, start, current, end, events);
      events := events + outcome.value;
      current := current + 1;
    }
    AccountedDone(minute, start, current, end, events);
    result := ScanResult(events, None);
  }

  /** One minute of the scan, as the loop sees it. */
  function Minute(eph: Ephemeris, mode: string): int -> Outcome {
    u => MomentEvents(u, eph(u), mode)
  }

  /** The scan from minute `t` through minute `end`, inclusive. */
  function ScanFrom(eph: Ephemeris, t: int, end: int, mode: string): ScanResult {
    Run(Minute(eph, mode), t, end)
  }

  /** A minute of the scan fails exactly when its cusp list is rejected, with an error naming its length. */
  lemma MinuteFails(eph: Ephemeris, mode: string, u: int)
    ensures Minute(eph, mode)(u).Failure? <==> !MinuteOk(eph, u)
    ensures Minute(eph, mode)(u).Failure? ==> Minute(eph, mode)(u).error == CuspCount(|eph(u).cusps|)
  {
  }

  /** MinuteFails for every minute at once. */
  lemma MinuteFailsIff(eph: Ephemeris, mode: string)
    ensures forall u :: Minute(eph, mode)(u).Failure? <==> !MinuteOk(eph, u)
    ensures forall u :: Minute(eph, mode)(u).Failure? ==>
              Minute(eph, mode)(u).error == CuspCount(|eph(u).cusps|)
  {
    forall u: int
      ensures Minute(eph, mode)(u).Failure? <==> !MinuteOk(eph, u)
      ensures Minute(eph, mode)(u).Failure? ==> Minute(eph, mode)(u).error == CuspCount(|eph(u).cusps|)
    {
      MinuteFails(eph, mode, u);
    }
  }

  /** The scan runs to the end of the window exactly when every minute in it has an accepted cusp list. */
  lemma ScanFailsIff(eph: Ephemeris, t: int, end: int, mode: string)
    ensures ScanFrom(eph, t, end, mode).failure.None? <==>
              forall u :: t <= u <= end ==> MinuteOk(eph, u)
  {
    RunFailsIff(Minute(eph, mode), t, end);
    MinuteFailsIff(eph, mode);
  }

  /**
   * Every line of the scan lies in the window and reports a body that passes the gate for
   * the mode, with the Fortune point and orb of its minute.
   */
  lemma ScanSound(eph: Ephemeris, t: int, end: int, mode: string)
    ensures forall e :: e in ScanFrom(eph, t, end, mode).events ==>
              t <= e.moment <= end && Sound(mode, eph, e)
  {
    var minute := Minute(eph, mode);
    RunEventsFrom(minute, t, end);
    forall e | e in Run(minute, t, end).events
      ensures t <= e.moment <= end && Sound(mode, eph, e)
    {
      var u :| t <= u <= end && minute(u).Success? && e in minute(u).value;
      MomentEventsSpec(u, eph(u), mode);
    }
  }

  /** The lines of the scan come out by minute, and within a minute in the fixed body order. */
  lemma ScanChronological(eph: Ephemeris, t: int, end: int, mode: string)
    ensures Chronological(ScanFrom(eph, t, end, mode).events)
  {
    var minute := Minute(eph, mode);
    forall u | minute(u).Success?
      ensures Chronological(minute(u).value)
      ensures forall e :: e in minute(u).value ==> e.moment == u
    {
      MomentEventsSpec(u, eph(u), mode);
    }
    RunChronological(minute, t, end);
  }

  /**
   * With no rejected cusp list in the window, every (minute, body) pair that passes the gate
   * gives its line.
   */
  lemma ScanComplete(eph: Ephemeris, t: int, end: int, mode: string, u: int, b: Body)
    requires ScanFrom(eph, t, end, mode).failure.None?
    requires t <= u <= end
    requires Emits(mode, Fortune(eph(u)), eph(u).longitude(b))
    ensures MinuteOk(eph, u)
    ensures Line(u, eph(u), FortuneHouse(eph(u)), b) in ScanFrom(eph, t, end, mode).events
  {
    RunCollects(Minute(eph, mode), t, end, u);
    MomentEventsSpec(u, eph(u), mode);
  }

  /**
   * A rejected cusp list stops the scan at the first minute that has one: the error names
   * its length, and the lines are exactly those of the scan that ends just before it.
   */
  lemma ScanStopsAtFirstBadMinute(eph: Ephemeris, t: int, end: int, mode: string, u: int)
    requires t <= u <= end
    requires !MinuteOk(eph, u)
    requires forall v :: t <= v < u ==> MinuteOk(eph, v)
    ensures ScanFrom(eph, t, end, mode).failure == Some(CuspCount(|eph(u).cusps|))
    ensures forall e :: e in ScanFrom(eph, t, end, mode).events ==> e.moment < u
    ensures ScanFrom(eph, t, u - 1, mode).failure.None?
    ensures ScanFrom(eph, t, end, mode).events == ScanFrom(eph, t, u - 1, mode).events
  {
    var minute := Minute(eph, mode);
    MinuteFailsIff(eph, mode);
    RunStopsAtFirstFailure(minute, t, end, u);
    forall e | e in Run(minute, t, end).events
      ensures e.moment < u
    {
      var v :| t <= v < u && minute(v).Success? && e in minute(v).value;
      MomentEventsSpec(v, eph(v), mode);
    }
  }

  /** Exact mode stops where wide mode stops, and every line it emits wide mode emits too. */
  lemma ExactScanWithinWide(eph: Ephemeris, t: int, end: int)
    ensures ScanFrom(eph, t, end, "Y").failure == ScanFrom(eph, t, end, "N").failure
    ensures forall e :: e in ScanFrom(eph, t, end, "Y").events ==> e in ScanFrom(eph, t, end, "N").events
  {
    var exact, wide := Minute(eph, "Y"), Minute(eph, "N");
    MinuteFailsIff(eph, "Y");
    MinuteFailsIff(eph, "N");
    forall u, e | exact(u).Success? && e in exact(u).value
      ensures e in wide(u).value
    {
      MomentEventsSpec(u, eph(u), "Y");
      MomentEventsSpec(u, eph(u), "N");
      ExactWithinWide(e.fortune, e.longitude);
    }
    RunMonotone(exact, wide, t, end);
  }

  /** Any mode other than `'N'` and `'Y'` emits no line over the whole window. */
  lemma OtherModeScanSilent(eph: Ephemeris, t: int, end: int, mode: string)
    requires mode != "N" && mode != "Y"
    ensures ScanFrom(eph, t, end, mode).events == []
  {
    var r := ScanFrom(eph, t, end, mode);
    ScanSound(eph, t, end, mode);
    if r.events != [] {
      assert r.events[0] in r.events;
      OtherModesSilent(mode, r.events[0].fortune, r.events[0].longitude);
    }
  }

  /**
   * With longitudes from the ephemeris in [0, 360), every line reports an orb within the
   * mode's limit and a body in the same sign as the Fortune point.
   */
  lemma ScanOrbBounds(eph: Ephemeris, t: int, end: int, mode: string)
    requires LongitudesInCircle(eph)
    ensures forall e :: e in ScanFrom(eph, t, end, mode).events ==>
              && 0.0 <= e.orb <= WideOrb
              && (mode == "Y" ==> e.orb <= ExactOrb)
              && Zodiac.SignIndex(e.fortune) == Zodiac.SignIndex(e.longitude)
  {
    ScanSound(eph, t, end, mode);
    forall e | e in ScanFrom(eph, t, end, mode).events
      ensures 0.0 <= e.orb <= WideOrb
      ensures mode == "Y" ==> e.orb <= ExactOrb
      ensures Zodiac.SignIndex(e.fortune) == Zodiac.SignIndex(e.longitude)
    {
      assert Sound(mode, eph, e);
      assert InCircle(e.longitude);
    }
  }

  /**
   * `print_fortuna_conjunctions` over a start minute and a duration in days: the loop runs
   * from `start` through `start + 1440 * days`, so a scan that is not aborted visits
   * 1440 * days + 1 minutes, and none when the duration is negative.
   */
  method Scan(eph: Ephemeris, start: int, days: int, mode: string)
    returns (result: ScanResult, visited: seq<int>)
    ensures result == ScanFrom(eph, start, start + MinutesPerDay * days, mode)
    ensures forall i :: 0 <= i < |visited| ==> visited[i] == start + i
    ensures result.failure.None? ==>
              |visited| == (if days >= 0 then MinutesPerDay * days + 1 else 0)
    ensures result.failure.Some? ==>
              && |visited| > 0
              && !MinuteOk(eph, visited[|visited| - 1])
              && forall i :: 0 <= i < |visited| - 1 ==> MinuteOk(eph, visited[i])
  {
    var minute := Minute(eph, mode);
    result, visited := RunLoop(minute, start, start + MinutesPerDay * days);
    if result.failure.Some? {
      MinuteFails(eph, mode, visited[|visited| - 1]);
      forall i | 0 <= i < |visited| - 1
        ensures MinuteOk(eph, visited[i])
      {
        MinuteFails(eph, mode, visited[i]);
      }
    }
  }
}
