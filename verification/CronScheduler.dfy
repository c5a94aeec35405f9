/**
 The local scheduler (backend/scheduler.py): a watermark loop whose ticks cover the windows
 (last tick, now], and the counting of cron fires in a window.  The cron library is a predicate
 on instants with a next-fire function that agrees with it and raises when there is no date left.
 */
module CronScheduler {
  import opened Common

  type ScheduleId = nat

  /** `next` answers `None` where `get_next` raises. */
  datatype Cron = Malformed(expression: nat) | Parsed(fires: int -> bool, next: int -> Option<int>)

  /** `next` gives the first fire after an instant, if there is one. */
  ghost predicate Consistent(c: Cron) {
    c.Parsed? ==> forall t: int :: if c.next(t).Some? then IsNextFire(c, t, c.next(t).value) else NoFireAfter(c, t)
  }

  ghost predicate NoFireAfter(c: Cron, t: int)
    requires c.Parsed?
  {
    forall u :: t < u ==> !c.fires(u)
  }

  ghost predicate IsNextFire(c: Cron, t: int, n: int)
    requires c.Parsed?
  {
    t < n && c.fires(n) && forall u :: t < u < n ==> !c.fires(u)
  }

  /** The number of fires in (start, end], instant by instant. */
  function Fires(c: Cron, start: int, end: int): nat
    decreases end - start
  {
    if c.Malformed? || end <= start then 0
    else Fires(c, start, end - 1) + (if c.fires(end) then 1 else 0)
  }

  lemma {:induction false} FiresAdd(c: Cron, a: int, b: int, d: int)
    requires a <= b <= d
    ensures Fires(c, a, b) + Fires(c, b, d) == Fires(c, a, d)
    decreases d - b
  {
    if b < d {
      FiresAdd(c, a, b, d - 1);
    }
  }

  lemma {:induction false} NoFires(c: Cron, start: int, end: int)
    requires c.Parsed? && forall u :: start < u <= end ==> !c.fires(u)
    ensures Fires(c, start, end) == 0
    decreases end - start
  {
    if start < end {
      NoFires(c, start, end - 1);
    }
  }

  /** A window counts a fire exactly when it holds one. */
  lemma {:induction false} FiresIff(c: Cron, start: int, end: int)
    ensures Fires(c, start, end) > 0 <==> c.Parsed? && exists u :: start < u <= end && c.fires(u)
    decreases end - start
  {
    if c.Parsed? && start < end {
      FiresIff(c, start, end - 1);
      if c.fires(end) {
        assert start < end <= end && c.fires(end);
      } else if Fires(c, start, end - 1) > 0 {
        var u :| start < u <= end - 1 && c.fires(u);
        assert start < u <= end && c.fires(u);
      } else {
        forall u | start < u <= end ensures !c.fires(u) {
          assert u <= end - 1 || u == end;
        }
      }
    }
  }

  /** Counting the fires of a window raises: no date is left after it, or after its start if it runs backwards. */
  predicate Raises(c: Cron, start: int, end: int) {
    c.Parsed? && c.next(if start < end then end else start).None?
  }

  /** Where the stepping stops decides whether it raises. */
  lemma RaisesIff(c: Cron, start: int, cursor: int, end: int)
    requires c.Parsed? && Consistent(c) && start <= cursor && (cursor == start || cursor <= end)
    requires c.next(cursor).Some? ==> c.next(cursor).value > end
    ensures Raises(c, start, end) <==> c.next(cursor).None?
  {
    var later := if start < end then end else start;
    if c.next(cursor).Some? {
      assert IsNextFire(c, cursor, c.next(cursor).value);
      assert c.next(later).None? ==> NoFireAfter(c, later);
    } else {
      assert NoFireAfter(c, cursor);
      assert c.next(later).Some? ==> IsNextFire(c, later, c.next(later).value);
    }
  }

  lemma NextFireCounts(c: Cron, from: int, n: int)
    requires c.Parsed? && IsNextFire(c, from, n)
    ensures Fires(c, from, n) == 1
  {
    NoFires(c, from, n - 1);
  }

  // ----- the loop over ticks ------------------------------------------------------------------

  datatype Schedule = Schedule(id: ScheduleId, cron: Cron)

  /** What a tick meets: the enabled schedules, or a failure before the first of them is looked at. */
  datatype Weather = Fetched(schedules: seq<Schedule>) | FetchFails

  datatype Tick = Tick(now: int, weather: Weather)

  /** A window, the schedules looked at and the dispatches attempted for it. */
  datatype Window = Window(start: int, end: int, schedules: seq<Schedule>, attempts: seq<ScheduleId>)

  /** The completed windows, and those that an exception while counting left open. */
  datatype State = State(watermark: Option<int>, windows: seq<Window>, aborted: seq<Window>)

  const START: State := State(None, [], [])

  /** The schedules with a fire in the window, in order: one attempt each, however many fires it holds. */
  function Due(schedules: seq<Schedule>, start: int, end: int): seq<ScheduleId> {
    if schedules == [] then []
    else
      var last := schedules[|schedules| - 1];
      Due(schedules[..|schedules| - 1], start, end) + (if Fires(last.cron, start, end) > 0 then [last.id] else [])
  }

  /** How many schedules are dealt with before counting raises, all of them if it does not. */
  function Reached(schedules: seq<Schedule>, start: int, end: int): (n: nat)
    ensures n <= |schedules|
    ensures forall k :: 0 <= k < n ==> !Raises(schedules[k].cron, start, end)
    ensures n < |schedules| ==> Raises(schedules[n].cron, start, end)
  {
    if schedules == [] || Raises(schedules[0].cron, start, end) then 0 else 1 + Reached(schedules[1..], start, end)
  }

  /** The window as far as the tick gets. */
  function Attempted(schedules: seq<Schedule>, start: int, end: int): Window {
    var reached := schedules[..Reached(schedules, start, end)];
    Window(start, end, reached, Due(reached, start, end))
  }

  function Step(s: State, tick: Tick): State {
    if s.watermark.None? then s.(watermark := Some(tick.now))
    else
      var start := s.watermark.value;
      match tick.weather
      case FetchFails => s
      case Fetched(schedules) =>
        var w := Attempted(schedules, start, tick.now);
        if Reached(schedules, start, tick.now) < |schedules| then s.(aborted := s.aborted + [w])
        else s.(watermark := Some(tick.now), windows := s.windows + [w])
  }

  function Run(ticks: seq<Tick>): State {
    if ticks == [] then START else Step(Run(ticks[..|ticks| - 1]), ticks[|ticks| - 1])
  }

  lemma RunSnoc(ticks: seq<Tick>, tick: Tick)
    ensures Run(ticks + [tick]) == Step(Run(ticks), tick)
  {
    assert (ticks + [tick])[..|ticks + [tick]| - 1] == ticks;
  }

  ghost predicate Monotone(ticks: seq<Tick>) {
    forall i, j :: 0 <= i <= j < |ticks| ==> ticks[i].now <= ticks[j].now
  }

  /** Some schedule of the tick makes counting raise. */
  predicate Fails(s: State, tick: Tick) {
    && s.watermark.Some? && tick.weather.Fetched?
    && Reached(tick.weather.schedules, s.watermark.value, tick.now) < |tick.weather.schedules|
  }

  /** No tick of the run is bad in the state it meets. */
  ghost predicate Never(bad: (State, Tick) -> bool, ticks: seq<Tick>) {
    forall i :: 0 <= i < |ticks| ==> !bad(Run(ticks[..i]), ticks[i])
  }

  lemma NeverSnoc(bad: (State, Tick) -> bool, front: seq<Tick>, last: Tick)
    ensures Never(bad, front + [last]) <==> Never(bad, front) && !bad(Run(front), last)
  {
    var ticks := front + [last];
    assert ticks[..|front|] == front && ticks[|front|] == last;
    assert forall i :: 0 <= i < |front| ==> ticks[..i] == front[..i] && ticks[i] == front[i];
  }

  // ----- windows partition time ----------------------------------------------------------------

  /** The windows follow one another without gap, from the first tick to the watermark, and attempt what is due. */
  ghost predicate Linked(windows: seq<Window>, first: int, last: int) {
    if windows == [] then first == last
    else
      var w := windows[|windows| - 1];
      && w.end == last && w.attempts == Due(w.schedules, w.start, w.end)
      && Linked(windows[..|windows| - 1], first, w.start)
  }

  /** In every run the completed windows are linked; with a non-decreasing clock none of them runs backwards. */
  lemma {:induction false} WindowsTile(ticks: seq<Tick>)
    requires ticks != []
    ensures Run(ticks).watermark.Some?
    ensures Linked(Run(ticks).windows, ticks[0].now, Run(ticks).watermark.value)
    ensures Monotone(ticks) ==>
              && Run(ticks).watermark.value <= ticks[|ticks| - 1].now
              && forall i :: 0 <= i < |Run(ticks).windows| ==> Run(ticks).windows[i].start <= Run(ticks).windows[i].end
  {
    var n := |ticks| - 1;
    var front := ticks[..n];
    if n == 0 {
      assert Run(front) == START;
    } else {
      WindowsTile(front);
      var s := Run(front);
      if ticks[n].weather.Fetched? && !Fails(s, ticks[n]) {
        var windows := Run(ticks).windows;
        assert windows[..|windows| - 1] == s.windows;
      }
    }
  }

  predicate Covers(w: Window, t: int) {
    w.start < t <= w.end
  }

  /** The window runs backwards over `t`. */
  predicate JumpsBack(w: Window, t: int) {
    w.end < t <= w.start
  }

  function One(b: bool): nat { if b then 1 else 0 }

  /** How many of the windows cover `t`, and how many run backwards over it. */
  function Covering(windows: seq<Window>, t: int): nat {
    if windows == [] then 0 else Covering(windows[..|windows| - 1], t) + One(Covers(windows[|windows| - 1], t))
  }

  function JumpingBack(windows: seq<Window>, t: int): nat {
    if windows == [] then 0 else JumpingBack(windows[..|windows| - 1], t) + One(JumpsBack(windows[|windows| - 1], t))
  }

  /** Coming forward over an instant and going back over it balance, up to where the windows start and end. */
  lemma {:induction false} CrossingsBalance(windows: seq<Window>, first: int, last: int, t: int)
    requires Linked(windows, first, last)
    ensures Covering(windows, t) + One(last < t <= first) == JumpingBack(windows, t) + One(first < t <= last)
  {
    if windows != [] {
      var w := windows[|windows| - 1];
      CrossingsBalance(windows[..|windows| - 1], first, w.start, t);
    }
  }

  /**
   For every clock: an instant after the first tick and up to the watermark is covered by one more
   completed window than run backwards over it.
   */
  lemma CoveringIsOneMoreThanBackward(ticks: seq<Tick>, t: int)
    requires ticks != [] && Run(ticks).watermark.Some? && ticks[0].now < t <= Run(ticks).watermark.value
    ensures Covering(Run(ticks).windows, t) == 1 + JumpingBack(Run(ticks).windows, t)
  {
    WindowsTile(ticks);
    CrossingsBalance(Run(ticks).windows, ticks[0].now, Run(ticks).watermark.value, t);
  }

  lemma {:induction false} NoneJumpsBack(windows: seq<Window>, t: int)
    requires forall i :: 0 <= i < |windows| ==> !JumpsBack(windows[i], t)
    ensures JumpingBack(windows, t) == 0
  {
    if windows != [] {
      NoneJumpsBack(windows[..|windows| - 1], t);
    }
  }

  /** With a non-decreasing clock every such instant is covered exactly once. */
  lemma MonotoneCoversOnce(ticks: seq<Tick>, t: int)
    requires ticks != [] && Monotone(ticks)
    requires Run(ticks).watermark.Some? && ticks[0].now < t <= Run(ticks).watermark.value
    ensures JumpingBack(Run(ticks).windows, t) == 0 && Covering(Run(ticks).windows, t) == 1
  {
    WindowsTile(ticks);
    NoneJumpsBack(Run(ticks).windows, t);
    CoveringIsOneMoreThanBackward(ticks, t);
  }

  lemma {:induction false} CoveredSomewhere(windows: seq<Window>, t: int) returns (i: nat)
    requires Covering(windows, t) > 0
    ensures i < |windows| && Covers(windows[i], t)
  {
    var n := |windows| - 1;
    if Covers(windows[n], t) {
      i := n;
    } else {
      i := CoveredSomewhere(windows[..n], t);
    }
  }

  lemma {:induction false} CoveringCounts(windows: seq<Window>, t: int, i: nat)
    requires i < |windows| && Covers(windows[i], t)
    ensures Covering(windows, t) >= 1
    ensures forall j :: 0 <= j < |windows| && j != i && Covers(windows[j], t) ==> Covering(windows, t) >= 2
  {
    var n := |windows| - 1;
    var front := windows[..n];
    if i < n {
      assert front[i] == windows[i];
      CoveringCounts(front, t, i);
      assert forall j :: 0 <= j < n ==> front[j] == windows[j];
    } else {
      forall j | 0 <= j < n && Covers(windows[j], t) ensures Covering(front, t) >= 1 {
        assert front[j] == windows[j];
        CoveringCounts(front, t, j);
      }
    }
  }

  /** Exactly one completed window covers the instant, exactly when none runs backwards over it. */
  lemma InstantIsCoveredOnceIff(ticks: seq<Tick>, t: int)
    requires ticks != [] && Run(ticks).watermark.Some? && ticks[0].now < t <= Run(ticks).watermark.value
    ensures JumpingBack(Run(ticks).windows, t) == 0 <==>
              exists i :: && 0 <= i < |Run(ticks).windows| && Covers(Run(ticks).windows[i], t)
                          && forall j :: 0 <= j < |Run(ticks).windows| && j != i ==> !Covers(Run(ticks).windows[j], t)
  {
    CoveringIsOneMoreThanBackward(ticks, t);
    var windows := Run(ticks).windows;
    var k := CoveredSomewhere(windows, t);
    CoveringCounts(windows, t, k);
    if JumpingBack(windows, t) > 0 {
      forall i | 0 <= i < |windows| && Covers(windows[i], t)
        ensures exists j :: 0 <= j < |windows| && j != i && Covers(windows[j], t)
      {
        TwiceCovered(windows, t, i);
      }
    }
  }

  lemma {:induction false} OnlyCover(windows: seq<Window>, t: int, i: nat)
    requires i < |windows| && forall j :: 0 <= j < |windows| && j != i ==> !Covers(windows[j], t)
    ensures Covering(windows, t) <= 1
  {
    var n := |windows| - 1;
    var front := windows[..n];
    assert forall j :: 0 <= j < n ==> front[j] == windows[j];
    if i < n {
      OnlyCover(front, t, i);
    } else {
      NoCover(front, t);
    }
  }

  lemma {:induction false} NoCover(windows: seq<Window>, t: int)
    requires forall j :: 0 <= j < |windows| ==> !Covers(windows[j], t)
    ensures Covering(windows, t) == 0
  {
    if windows != [] {
      NoCover(windows[..|windows| - 1], t);
    }
  }

  lemma TwiceCovered(windows: seq<Window>, t: int, i: nat)
    requires i < |windows| && Covering(windows, t) >= 2
    ensures exists j :: 0 <= j < |windows| && j != i && Covers(windows[j], t)
  {
    if forall j :: 0 <= j < |windows| && j != i ==> !Covers(windows[j], t) {
      OnlyCover(windows, t, i);
    }
  }

  // ----- one dispatch per window and schedule ----------------------------------------------------

  ghost predicate DistinctIds(schedules: seq<Schedule>) {
    forall i, j :: 0 <= i < j < |schedules| ==> schedules[i].id != schedules[j].id
  }

  function Times(ids: seq<ScheduleId>, id: ScheduleId): nat {
    if ids == [] then 0 else Times(ids[..|ids| - 1], id) + (if ids[|ids| - 1] == id then 1 else 0)
  }

  lemma TimesSnoc(ids: seq<ScheduleId>, last: ScheduleId, id: ScheduleId)
    ensures Times(ids + [last], id) == Times(ids, id) + (if last == id then 1 else 0)
  {
    assert (ids + [last])[..|ids + [last]| - 1] == ids;
  }

  lemma {:induction false} DueOthers(schedules: seq<Schedule>, start: int, end: int, id: ScheduleId)
    requires forall i :: 0 <= i < |schedules| ==> schedules[i].id != id
    ensures Times(Due(schedules, start, end), id) == 0
  {
    if schedules != [] {
      var prefix, last := schedules[..|schedules| - 1], schedules[|schedules| - 1];
      DueOthers(prefix, start, end, id);
      TimesSnoc(Due(prefix, start, end), last.id, id);
      assert Due(prefix, start, end) + [] == Due(prefix, start, end);
    }
  }

  /** A schedule is dispatched once for a window that holds a fire of it, and not at all otherwise. */
  lemma {:induction false} DueOnce(schedules: seq<Schedule>, start: int, end: int, k: nat)
    requires DistinctIds(schedules) && k < |schedules|
    ensures Times(Due(schedules, start, end), schedules[k].id) == if Fires(schedules[k].cron, start, end) > 0 then 1 else 0
  {
    var n := |schedules| - 1;
    var prefix, last := schedules[..n], schedules[n];
    TimesSnoc(Due(prefix, start, end), last.id, schedules[k].id);
    assert Due(prefix, start, end) + [] == Due(prefix, start, end);
    if k == n {
      DueOthers(prefix, start, end, last.id);
    } else {
      DueOnce(prefix, start, end, k);
    }
  }

  lemma CoveredIsAttempted(w: Window, id: ScheduleId, cron: Cron, t: int)
    requires cron.Parsed? && cron.fires(t) && Covers(w, t) && w.attempts == Due(w.schedules, w.start, w.end)
    requires DistinctIds(w.schedules) && Schedule(id, cron) in w.schedules
    ensures Times(w.attempts, id) == 1
  {
    var k :| 0 <= k < |w.schedules| && w.schedules[k] == Schedule(id, cron);
    FiresIff(cron, w.start, w.end);
    DueOnce(w.schedules, w.start, w.end, k);
  }

  // ----- how often a fire is dispatched --------------------------------------------------------------

  /** The attempts made for `id` by the windows that cover `t`. */
  function Attempts(windows: seq<Window>, id: ScheduleId, t: int): nat {
    if windows == [] then 0
    else
      var w := windows[|windows| - 1];
      Attempts(windows[..|windows| - 1], id, t) + (if Covers(w, t) then Times(w.attempts, id) else 0)
  }

  lemma AttemptsSnoc(windows: seq<Window>, w: Window, id: ScheduleId, t: int)
    ensures Attempts(windows + [w], id, t) == Attempts(windows, id, t) + (if Covers(w, t) then Times(w.attempts, id) else 0)
  {
    assert (windows + [w])[..|windows + [w]| - 1] == windows;
  }

  lemma CoveringSnoc(windows: seq<Window>, w: Window, t: int)
    ensures Covering(windows + [w], t) == Covering(windows, t) + One(Covers(w, t))
  {
    assert (windows + [w])[..|windows + [w]| - 1] == windows;
  }

  /** The tick's window covers `t`. */
  predicate Over(s: State, tick: Tick, t: int) {
    s.watermark.Some? && s.watermark.value < t <= tick.now
  }

  ghost predicate Lists(tick: Tick, id: ScheduleId, cron: Cron) {
    tick.weather.Fetched? ==> DistinctIds(tick.weather.schedules) && Schedule(id, cron) in tick.weather.schedules
  }

  /** The schedule is enabled whenever the schedules are read for a window that covers `t`. */
  ghost predicate Enabled(ticks: seq<Tick>, id: ScheduleId, cron: Cron, t: int) {
    Never(Omission(id, cron, t), ticks)
  }

  ghost function Omission(id: ScheduleId, cron: Cron, t: int): (State, Tick) -> bool {
    (s, tick) => Over(s, tick, t) && !Lists(tick, id, cron)
  }

  /** The tick covers `t` and raises while counting, but after it has dealt with the schedule. */
  predicate Repeats(s: State, tick: Tick, id: ScheduleId, t: int) {
    && Fails(s, tick) && Over(s, tick, t)
    && exists k :: 0 <= k < Reached(tick.weather.schedules, s.watermark.value, tick.now) && tick.weather.schedules[k].id == id
  }

  function Repetition(id: ScheduleId, t: int): (State, Tick) -> bool {
    (s, tick) => Repeats(s, tick, id, t)
  }

  function Repeating(ticks: seq<Tick>, id: ScheduleId, t: int): nat {
    if ticks == [] then 0
    else
      var front := ticks[..|ticks| - 1];
      Repeating(front, id, t) + One(Repeats(Run(front), ticks[|ticks| - 1], id, t))
  }

  /** What a tick that reads its schedules attempts for the schedule: one dispatch if it reaches it. */
  lemma AttemptedOnce(schedules: seq<Schedule>, start: int, end: int, id: ScheduleId, cron: Cron, t: int)
    requires cron.Parsed? && cron.fires(t) && start < t <= end
    requires DistinctIds(schedules) && Schedule(id, cron) in schedules
    ensures Times(Attempted(schedules, start, end).attempts, id)
            == One(exists k :: 0 <= k < Reached(schedules, start, end) && schedules[k].id == id)
  {
    var w := Attempted(schedules, start, end);
    var n := Reached(schedules, start, end);
    assert forall k :: 0 <= k < n ==> w.schedules[k] == schedules[k];
    if k :| 0 <= k < n && schedules[k].id == id {
      assert schedules[k] == Schedule(id, cron) by {
        var j :| 0 <= j < |schedules| && schedules[j] == Schedule(id, cron);
        assert j == k;
      }
      assert w.schedules[k] == Schedule(id, cron);
      CoveredIsAttempted(w, id, cron, t);
    } else {
      DueOthers(w.schedules, start, end, id);
    }
  }

  /** What one tick adds: a dispatch per completed window over the fire, and one per repetition. */
  lemma TickAttempts(s: State, tick: Tick, id: ScheduleId, cron: Cron, t: int)
    requires cron.Parsed? && cron.fires(t)
    requires Over(s, tick, t) ==> Lists(tick, id, cron)
    ensures var r := Step(s, tick);
            && Attempts(r.windows, id, t) - Attempts(s.windows, id, t) == Covering(r.windows, t) - Covering(s.windows, t)
            && Attempts(r.aborted, id, t) == Attempts(s.aborted, id, t) + One(Repeats(s, tick, id, t))
  {
    if s.watermark.Some? && tick.weather.Fetched? {
      var schedules := tick.weather.schedules;
      var w := Attempted(schedules, s.watermark.value, tick.now);
      AttemptsSnoc(s.windows, w, id, t);
      CoveringSnoc(s.windows, w, t);
      AttemptsSnoc(s.aborted, w, id, t);
      if Covers(w, t) {
        AttemptedOnce(schedules, s.watermark.value, tick.now, id, cron, t);
        if !Fails(s, tick) {
          CoveredIsAttempted(w, id, cron, t);
        }
      }
    }
  }

  lemma AttemptsOn(front: seq<Tick>, last: Tick, id: ScheduleId, cron: Cron, t: int)
    requires cron.Parsed? && cron.fires(t) && !Omission(id, cron, t)(Run(front), last)
    requires Attempts(Run(front).windows, id, t) == Covering(Run(front).windows, t)
    requires Attempts(Run(front).aborted, id, t) == Repeating(front, id, t)
    ensures Attempts(Run(front + [last]).windows, id, t) == Covering(Run(front + [last]).windows, t)
    ensures Attempts(Run(front + [last]).aborted, id, t) == Repeating(front + [last], id, t)
  {
    RunSnoc(front, last);
    assert (front + [last])[..|front + [last]| - 1] == front;
    TickAttempts(Run(front), last, id, cron, t);
  }

  lemma {:induction false} RunAttempts(ticks: seq<Tick>, id: ScheduleId, cron: Cron, t: int)
    requires cron.Parsed? && cron.fires(t) && Enabled(ticks, id, cron, t)
    ensures Attempts(Run(ticks).windows, id, t) == Covering(Run(ticks).windows, t)
    ensures Attempts(Run(ticks).aborted, id, t) == Repeating(ticks, id, t)
  {
    if ticks != [] {
      var front, last := ticks[..|ticks| - 1], ticks[|ticks| - 1];
      assert front + [last] == ticks;
      NeverSnoc(Omission(id, cron, t), front, last);
      RunAttempts(front, id, cron, t);
      AttemptsOn(front, last, id, cron, t);
    }
  }

  /** The dispatches attempted for the fire at `t`, in completed windows and in those left open. */
  function Dispatches(ticks: seq<Tick>, id: ScheduleId, t: int): nat {
    Attempts(Run(ticks).windows, id, t) + Attempts(Run(ticks).aborted, id, t)
  }

  /**
   For every clock and every failure: a fire between the first tick and the watermark is
   dispatched once, once more for every completed window that runs backwards over it, and once
   more for every tick over it that raises after having dealt with the schedule.
   */
  lemma DispatchesAreCounted(ticks: seq<Tick>, id: ScheduleId, cron: Cron, t: int)
    requires ticks != [] && cron.Parsed? && cron.fires(t) && Enabled(ticks, id, cron, t)
    requires Run(ticks).watermark.Some? && ticks[0].now < t <= Run(ticks).watermark.value
    ensures Attempts(Run(ticks).windows, id, t) == 1 + JumpingBack(Run(ticks).windows, t)
    ensures Dispatches(ticks, id, t) == 1 + JumpingBack(Run(ticks).windows, t) + Repeating(ticks, id, t)
  {
    RunAttempts(ticks, id, cron, t);
    CoveringIsOneMoreThanBackward(ticks, t);
  }

  lemma RepeatingSnoc(front: seq<Tick>, last: Tick, id: ScheduleId, t: int)
    ensures Repeating(front + [last], id, t) == Repeating(front, id, t) + One(Repetition(id, t)(Run(front), last))
  {
    assert (front + [last])[..|front + [last]| - 1] == front;
  }

  lemma {:induction false} NoneRepeatsIff(ticks: seq<Tick>, id: ScheduleId, t: int)
    ensures Repeating(ticks, id, t) == 0 <==> Never(Repetition(id, t), ticks)
  {
    if ticks != [] {
      var front, last := ticks[..|ticks| - 1], ticks[|ticks| - 1];
      assert ticks == front + [last];
      NoneRepeatsIff(front, id, t);
      RepeatingSnoc(front, last, id, t);
      NeverSnoc(Repetition(id, t), front, last);
    }
  }

  /**
   So a fire is dispatched exactly once, exactly when no completed window runs backwards over it
   and no tick over it raises while counting after having dealt with the schedule.
   */
  lemma FireIsDispatchedOnceIff(ticks: seq<Tick>, id: ScheduleId, cron: Cron, t: int)
    requires ticks != [] && cron.Parsed? && cron.fires(t) && Enabled(ticks, id, cron, t)
    requires Run(ticks).watermark.Some? && ticks[0].now < t <= Run(ticks).watermark.value
    ensures Dispatches(ticks, id, t) == 1 <==>
              JumpingBack(Run(ticks).windows, t) == 0 && Never(Repetition(id, t), ticks)
  {
    DispatchesAreCounted(ticks, id, cron, t);
    NoneRepeatsIff(ticks, id, t);
  }

  // ----- ticks that raise ------------------------------------------------------------------------------

  /** The tick raises while counting, after having dispatched something. */
  predicate Strays(s: State, tick: Tick) {
    && Fails(s, tick)
    && exists k :: && 0 <= k < Reached(tick.weather.schedules, s.watermark.value, tick.now)
                   && Fires(tick.weather.schedules[k].cron, s.watermark.value, tick.now) > 0
  }

  lemma {:induction false} DueNoneIff(schedules: seq<Schedule>, start: int, end: int)
    ensures Due(schedules, start, end) == [] <==> forall k :: 0 <= k < |schedules| ==> Fires(schedules[k].cron, start, end) == 0
  {
    if schedules != [] {
      var n := |schedules| - 1;
      DueNoneIff(schedules[..n], start, end);
      assert forall k :: 0 <= k < n ==> schedules[..n][k] == schedules[k];
    }
  }

  lemma StrayStep(s: State, tick: Tick)
    requires Fails(s, tick)
    ensures Strays(s, tick) <==> Attempted(tick.weather.schedules, s.watermark.value, tick.now).attempts != []
  {
    var start, schedules := s.watermark.value, tick.weather.schedules;
    var w := Attempted(schedules, start, tick.now);
    DueNoneIff(w.schedules, start, tick.now);
    assert forall k :: 0 <= k < |w.schedules| ==> w.schedules[k] == schedules[k];
  }

  ghost predicate NoAttempts(windows: seq<Window>) {
    forall i :: 0 <= i < |windows| ==> windows[i].attempts == []
  }

  /** Nothing is dispatched outside completed windows, exactly when no tick raises after having dispatched something. */
  lemma {:induction false} NothingIsAbortedIff(ticks: seq<Tick>)
    ensures NoAttempts(Run(ticks).aborted) <==> Never(Strays, ticks)
  {
    if ticks != [] {
      var front, last := ticks[..|ticks| - 1], ticks[|ticks| - 1];
      assert ticks == front + [last];
      NothingIsAbortedIff(front);
      NeverSnoc(Strays, front, last);
      AbortedStep(Run(front), last);
    }
  }

  lemma AbortedStep(s: State, tick: Tick)
    ensures NoAttempts(Step(s, tick).aborted) <==> NoAttempts(s.aborted) && !Strays(s, tick)
  {
    var before, after := s.aborted, Step(s, tick).aborted;
    if Fails(s, tick) {
      StrayStep(s, tick);
      assert after[|before|] == Attempted(tick.weather.schedules, s.watermark.value, tick.now);
      assert forall i :: 0 <= i < |before| ==> after[i] == before[i];
    }
  }

  /** A tick that completes its window. */
  lemma WentOver(ticks: seq<Tick>, schedules: seq<Schedule>, now: int) returns (after: seq<Tick>)
    requires Run(ticks).watermark.Some? && Reached(schedules, Run(ticks).watermark.value, now) == |schedules|
    ensures after == ticks + [Tick(now, Fetched(schedules))]
    ensures var s := Run(ticks);
            Run(after) == State(Some(now), s.windows + [Attempted(schedules, s.watermark.value, now)], s.aborted)
  {
    after := ticks + [Tick(now, Fetched(schedules))];
    RunSnoc(ticks, Tick(now, Fetched(schedules)));
    assert schedules[..|schedules|] == schedules;
  }

  /** A tick that raises while counting. */
  lemma BrokeOff(ticks: seq<Tick>, schedules: seq<Schedule>, now: int) returns (after: seq<Tick>)
    requires Run(ticks).watermark.Some? && Reached(schedules, Run(ticks).watermark.value, now) < |schedules|
    ensures after == ticks + [Tick(now, Fetched(schedules))]
    ensures var s := Run(ticks); Run(after) == s.(aborted := s.aborted + [Attempted(schedules, s.watermark.value, now)])
  {
    after := ticks + [Tick(now, Fetched(schedules))];
    RunSnoc(ticks, Tick(now, Fetched(schedules)));
  }

  /**
   When counting raises after some schedules have been dispatched, the window stays open and
   the next tick dispatches them again, for the same fire.
   */
  lemma FailedCountRepeatsDispatch(cron: Cron, id: ScheduleId, other: Schedule, first: int, t: int, later: int) returns (ticks: seq<Tick>)
    requires cron.Parsed? && cron.fires(t) && first < t <= later && other.id != id
    requires !Raises(cron, first, later) && Raises(other.cron, first, later)
    ensures Monotone(ticks) && Enabled(ticks, id, cron, t) && ticks != [] && Run(ticks).watermark == Some(later)
    ensures ticks[0].now < t <= later && Dispatches(ticks, id, t) == 2
  {
    var only, both := [Schedule(id, cron)], [Schedule(id, cron), other];
    RunSnoc([], Tick(first, FetchFails));
    ticks := BrokeOff([] + [Tick(first, FetchFails)], both, later);
    ticks := WentOver(ticks, only, later);
    ListedIsEnabled(ticks, id, cron, t);
    assert Run(ticks) == State(Some(later), [] + [Attempted(only, first, later)], [] + [Attempted(both, first, later)]);
    OneAttempt(only, first, later, id, cron, t);
    OneAttempt(both, first, later, id, cron, t);
  }

  lemma OneAttempt(schedules: seq<Schedule>, start: int, end: int, id: ScheduleId, cron: Cron, t: int)
    requires cron.Parsed? && cron.fires(t) && start < t <= end && DistinctIds(schedules)
    requires schedules != [] && schedules[0] == Schedule(id, cron) && !Raises(cron, start, end)
    ensures Attempts([] + [Attempted(schedules, start, end)], id, t) == 1
  {
    AttemptedOnce(schedules, start, end, id, cron, t);
    AttemptsSnoc([], Attempted(schedules, start, end), id, t);
    assert schedules[0].id == id && 0 < Reached(schedules, start, end);
  }

  lemma ListedIsEnabled(ticks: seq<Tick>, id: ScheduleId, cron: Cron, t: int)
    requires forall i :: 0 <= i < |ticks| ==> Lists(ticks[i], id, cron)
    ensures Enabled(ticks, id, cron, t)
  {
  }

  /** An enabled schedule with no date left makes every later tick raise. */
  lemma {:induction false} ExhaustedFails(schedules: seq<Schedule>, x: Schedule, start: int, end: int)
    requires x in schedules && Consistent(x.cron) && x.cron.Parsed? && x.cron.next(start).None?
    ensures Reached(schedules, start, end) < |schedules|
  {
    var later := if start < end then end else start;
    assert NoFireAfter(x.cron, start);
    assert x.cron.next(later).Some? ==> IsNextFire(x.cron, later, x.cron.next(later).value);
    var k :| 0 <= k < |schedules| && schedules[k] == x;
    assert Raises(schedules[k].cron, start, end);
  }

  /**
   One schedule with no date left stops the watermark for ever: as long as it stays enabled no
   window is completed again, whatever the clock does.
   */
  lemma {:induction false} ExhaustedScheduleStopsTheWatermark(ticks: seq<Tick>, more: seq<Tick>, x: Schedule)
    requires Run(ticks).watermark.Some? && Consistent(x.cron) && x.cron.Parsed?
    requires x.cron.next(Run(ticks).watermark.value).None?
    requires forall i :: 0 <= i < |more| && more[i].weather.Fetched? ==> x in more[i].weather.schedules
    ensures Run(ticks + more).watermark == Run(ticks).watermark && Run(ticks + more).windows == Run(ticks).windows
  {
    if more == [] {
      assert ticks + more == ticks;
    } else {
      var n := |more| - 1;
      assert (ticks + more)[..|ticks + more| - 1] == ticks + more[..n];
      ExhaustedScheduleStopsTheWatermark(ticks, more[..n], x);
      if more[n].weather.Fetched? {
        ExhaustedFails(more[n].weather.schedules, x, Run(ticks).watermark.value, more[n].now);
      }
    }
  }

  /** A clock that runs backwards makes windows overlap, and a fire is dispatched twice. */
  lemma BackwardClockRepeatsDispatch(cron: Cron, id: ScheduleId, first: int, t: int) returns (ticks: seq<Tick>)
    requires cron.Parsed? && cron.fires(t) && first < t && !Raises(cron, first, t)
    ensures Enabled(ticks, id, cron, t) && Dispatches(ticks, id, t) == 2
    ensures Run(ticks).aborted == []
  {
    var schedules := [Schedule(id, cron)];
    ticks := [];
    RunSnoc(ticks, Tick(first, FetchFails));
    ticks := ticks + [Tick(first, FetchFails)];
    ticks := WentOver(ticks, schedules, t);
    ticks := WentOver(ticks, schedules, first);
    ticks := WentOver(ticks, schedules, t);
    var w, back := Attempted(schedules, first, t), Attempted(schedules, t, first);
    assert Run(ticks).windows == [] + [w] + [back] + [w];
    ListedIsEnabled(ticks, id, cron, t);
    AttemptedOnce(schedules, first, t, id, cron, t);
    assert schedules[0].id == id;
    AttemptsSnoc([], w, id, t);
    AttemptsSnoc([] + [w], back, id, t);
    AttemptsSnoc([] + [w] + [back], w, id, t);
  }

  // ----- the loop itself -----------------------------------------------------------------------------

  class LocalScheduler {
    var lastTick: Option<int>
    var warned: set<(ScheduleId, nat)>

    constructor ()
      ensures lastTick.None? && warned == {}
    {
      lastTick, warned := None, {};
    }

    /** Steps from fire to fire and counts those not after the end of the window; `None` if that raises. */
    method FiresInWindow(id: ScheduleId, cron: Cron, start: int, end: int) returns (counted: Option<nat>)
      requires Consistent(cron)
      modifies this`warned
      ensures counted == if Raises(cron, start, end) then None else Some(Fires(cron, start, end))
      ensures warned == if cron.Malformed? then old(warned) + {(id, cron.expression)} else old(warned)
    {
      var count := 0;
      if cron.Malformed? {
        if (id, cron.expression) !in warned {
          warned := warned + {(id, cron.expression)};
        }
        return Some(0);
      }
      var cursor := start;
      var next := cron.next(cursor);
      while next.Some? && next.value <= end
        invariant start <= cursor && next == cron.next(cursor) && (cursor == start || cursor <= end)
        invariant count == Fires(cron, start, cursor) && warned == old(warned)
        decreases end - cursor
      {
        assert IsNextFire(cron, cursor, next.value);
        NextFireCounts(cron, cursor, next.value);
        FiresAdd(cron, start, cursor, next.value);
        count := count + 1;
        cursor := next.value;
        next := cron.next(cursor);
      }
      RaisesIff(cron, start, cursor, end);
      if next.None? { return None; }
      if cursor <= end {
        assert IsNextFire(cron, cursor, next.value);
        NoFires(cron, cursor, end);
        FiresAdd(cron, start, cursor, end);
      }
      return Some(count);
    }

    /** One tick that reads its schedules: the attempts it makes, and the new watermark unless counting raises. */
    method RunTick(now: int, schedules: seq<Schedule>) returns (attempts: seq<ScheduleId>)
      requires forall k :: 0 <= k < |schedules| ==> Consistent(schedules[k].cron)
      modifies this
      ensures old(lastTick).None? ==> attempts == [] && lastTick == Some(now)
      ensures old(lastTick).Some? ==>
                && attempts == Attempted(schedules, old(lastTick).value, now).attempts
                && lastTick == if Reached(schedules, old(lastTick).value, now) == |schedules| then Some(now) else old(lastTick)
    {
      attempts := [];
      if lastTick.None? {
        lastTick := Some(now);
        return;
      }
      var k := 0;
      while k < |schedules|
        invariant lastTick == old(lastTick)
        invariant 0 <= k <= Reached(schedules, lastTick.value, now)
        invariant attempts == Due(schedules[..k], lastTick.value, now)
      {
        var counted := FiresInWindow(schedules[k].id, schedules[k].cron, lastTick.value, now);
        if counted.None? {
          return;
        }
        assert schedules[..k + 1][..k] == schedules[..k];
        if counted.value > 0 {
          attempts := attempts + [schedules[k].id];
        }
        k := k + 1;
      }
      assert schedules[..k] == schedules;
      lastTick := Some(now);
    }
  }
}
