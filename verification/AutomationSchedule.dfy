/**
 Automation schedules (backend/automation_schedule.py): the schedule notation, and the matching
 of UTC minutes after conversion to local time.  Instants are microseconds since the epoch; a
 time zone is any map from UTC minutes to local fields.
 */
module AutomationSchedule {
  import opened Common

  datatype Kind = Daily | Weekdays | Weekly

  datatype Spec = Hourly | At(kind: Kind, hour: nat, minute: nat)

  datatype Failure = BadNotation | BadTime | UnknownZone | NaiveWindow

  predicate ValidSpec(s: Spec) {
    s.At? ==> s.hour <= 23 && s.minute <= 59
  }

  // ----- the notation --------------------------------------------------------------------------

  /** The characters a regular expression's digit class accepts, with their values. */
  type DigitTable = char -> Option<nat>

  ghost predicate Decimal(digits: DigitTable) {
    && (forall c :: digits(c).Some? ==> digits(c).value <= 9)
    && (forall c :: '0' <= c <= '9' ==> digits(c) == Some(c as int - '0' as int))
  }

  function Digit(k: nat): char
    requires k <= 9
  {
    ('0' as int + k) as char
  }

  function KindName(k: Kind): string {
    match k
    case Daily => "daily"
    case Weekdays => "weekdays"
    case Weekly => "weekly"
  }

  predicate StartsWith(s: string, prefix: string) {
    |prefix| <= |s| && s[..|prefix|] == prefix
  }

  /** The kind in front of the `@`, if it is one of the three. */
  function KindOf(s: string): Option<Kind> {
    if StartsWith(s, "daily@") then Some(Daily)
    else if StartsWith(s, "weekdays@") then Some(Weekdays)
    else if StartsWith(s, "weekly@") then Some(Weekly)
    else None
  }

  /** Two digits, a colon, two digits, and nothing else. */
  predicate IsClock(digits: DigitTable, s: string) {
    && |s| == 5 && s[2] == ':'
    && digits(s[0]).Some? && digits(s[1]).Some? && digits(s[3]).Some? && digits(s[4]).Some?
  }

  function Parse(digits: DigitTable, s: string): Result<Spec, Failure> {
    if s == "hourly" then Ok(Hourly)
    else
      var kind := KindOf(s);
      if kind.None? then Err(BadNotation)
      else
        var clock := s[|KindName(kind.value)| + 1..];
        if !IsClock(digits, clock) then Err(BadNotation)
        else
          var hour := 10 * digits(clock[0]).value + digits(clock[1]).value;
          var minute := 10 * digits(clock[3]).value + digits(clock[4]).value;
          if hour > 23 || minute > 59 then Err(BadTime) else Ok(At(kind.value, hour, minute))
  }

  function Clock(hour: nat, minute: nat): string
    requires hour <= 99 && minute <= 99
  {
    [Digit(hour / 10), Digit(hour % 10), ':', Digit(minute / 10), Digit(minute % 10)]
  }

  /** The notation of a specification. */
  function Render(s: Spec): string
    requires ValidSpec(s)
  {
    match s
    case Hourly => "hourly"
    case At(kind, hour, minute) => KindName(kind) + "@" + Clock(hour, minute)
  }

  lemma KindOfRendered(kind: Kind, clock: string)
    ensures KindOf(KindName(kind) + "@" + clock) == Some(kind)
    ensures (KindName(kind) + "@" + clock)[|KindName(kind)| + 1..] == clock
    ensures KindName(kind) + "@" + clock != "hourly"
  {
    var s := KindName(kind) + "@" + clock;
    NotHourly(s);
    match kind
    case Daily =>
      assert s[..6] == "daily@";
      assert s[0] == 'd';
    case Weekdays =>
      assert s[..9] == "weekdays@";
      assert s[0] == 'w';
    case Weekly =>
      assert s[..7] == "weekly@";
      assert s[0] == 'w' && s[4] == 'l';
  }

  /** The first letter alone tells the kinds from `hourly`. */
  lemma NotHourly(s: string)
    requires s != [] && s[0] != 'h'
    ensures s != "hourly"
  {
  }

  /** Every valid specification is read back from its notation. */
  lemma ParseRender(digits: DigitTable, s: Spec)
    requires Decimal(digits) && ValidSpec(s)
    ensures Parse(digits, Render(s)) == Ok(s)
  {
    if s.At? {
      var clock := Clock(s.hour, s.minute);
      KindOfRendered(s.kind, clock);
      assert digits(Digit(s.hour / 10)) == Some(s.hour / 10) && digits(Digit(s.hour % 10)) == Some(s.hour % 10);
      assert digits(Digit(s.minute / 10)) == Some(s.minute / 10) && digits(Digit(s.minute % 10)) == Some(s.minute % 10);
    }
  }

  lemma KindOfSplits(s: string)
    requires KindOf(s).Some?
    ensures s == KindName(KindOf(s).value) + "@" + s[|KindName(KindOf(s).value)| + 1..]
  {
    var n := |KindName(KindOf(s).value)| + 1;
    assert s == s[..n] + s[n..];
  }

  /** The notation of a kind, an `@` and a clock time of two digits, a colon and two digits. */
  predicate Denotes(digits: DigitTable, s: string, kind: Kind, hour: nat, minute: nat) {
    && |s| >= 5
    && var n := |s| - 5;
    && s[..n] == (match kind case Daily => "daily@" case Weekdays => "weekdays@" case Weekly => "weekly@")
    && digits(s[n]).Some? && digits(s[n + 1]).Some? && s[n + 2] == ':' && digits(s[n + 3]).Some? && digits(s[n + 4]).Some?
    && hour == 10 * digits(s[n]).value + digits(s[n + 1]).value
    && minute == 10 * digits(s[n + 3]).value + digits(s[n + 4]).value
  }

  lemma KindIsRead(digits: DigitTable, s: string, kind: Kind, hour: nat, minute: nat)
    ensures Denotes(digits, s, kind, hour, minute) <==> IsRead(digits, s, kind, hour, minute)
  {
    if Denotes(digits, s, kind, hour, minute) {
      DenotedIsRead(digits, s, kind, hour, minute);
    } else if IsRead(digits, s, kind, hour, minute) {
      KindOfSplits(s);
    }
  }

  /** The parser finds this kind and this clock time. */
  predicate IsRead(digits: DigitTable, s: string, kind: Kind, hour: nat, minute: nat) {
    && KindOf(s) == Some(kind)
    && var clock := s[|KindName(kind)| + 1..];
    && IsClock(digits, clock)
    && hour == 10 * digits(clock[0]).value + digits(clock[1]).value
    && minute == 10 * digits(clock[3]).value + digits(clock[4]).value
  }

  lemma DenotedIsRead(digits: DigitTable, s: string, kind: Kind, hour: nat, minute: nat)
    requires Denotes(digits, s, kind, hour, minute)
    ensures IsRead(digits, s, kind, hour, minute)
  {
    var n := |s| - 5;
    assert s == KindName(kind) + "@" + s[n..];
    KindOfRendered(kind, s[n..]);
  }

  /**
   A notation is read as `hourly` or as a kind and a clock time exactly if that is what it denotes
   and the time exists; one that denotes a time that does not exist is refused as such, anything
   else as no notation.
   */
  lemma ParseAcceptsIff(digits: DigitTable, s: string, kind: Kind, hour: nat, minute: nat)
    ensures Parse(digits, s) == Ok(Hourly) <==> s == "hourly"
    ensures Parse(digits, s) == Ok(At(kind, hour, minute)) <==> Denotes(digits, s, kind, hour, minute) && hour <= 23 && minute <= 59
    ensures Denotes(digits, s, kind, hour, minute) && (hour > 23 || minute > 59) ==> Parse(digits, s) == Err(BadTime)
    ensures s != "hourly" && (forall k: Kind, h: nat, m: nat :: !Denotes(digits, s, k, h, m)) ==> Parse(digits, s) == Err(BadNotation)
  {
    KindIsRead(digits, s, kind, hour, minute);
    if Denotes(digits, s, kind, hour, minute) {
      NotHourly(s);
    }
    if KindOf(s).Some? {
      var k := KindOf(s).value;
      var clock := s[|KindName(k)| + 1..];
      if IsClock(digits, clock) {
        KindIsRead(digits, s, k, 10 * digits(clock[0]).value + digits(clock[1]).value, 10 * digits(clock[3]).value + digits(clock[4]).value);
      }
    }
  }

  // ----- fire times ----------------------------------------------------------------------------------

  const MINUTE := 60_000_000

  datatype Local = Local(hour: int, minute: int, weekday: int)

  type Zone = int -> Local

  datatype Instant = Naive(wall: int) | Aware(utc: int)

  predicate Matches(spec: Spec, l: Local) {
    match spec
    case Hourly => l.minute == 0
    case At(kind, hour, minute) =>
      && l.hour == hour && l.minute == minute
      && (match kind case Daily => true case Weekdays => l.weekday < 5 case Weekly => l.weekday == 0)
  }

  /** The matching minutes after minute `lo`, up to minute `hi`. */
  function Matching(spec: Spec, zone: Zone, lo: int, hi: int): seq<int>
    decreases hi - lo
  {
    if hi <= lo then []
    else Matching(spec, zone, lo, hi - 1) + (if Matches(spec, zone(hi)) then [hi * MINUTE] else [])
  }

  function FireTimes(spec: Spec, zone: Zone, start: int, end: int): seq<int> {
    Matching(spec, zone, start / MINUTE, end / MINUTE)
  }

  lemma {:induction false} MatchingAdds(spec: Spec, zone: Zone, a: int, b: int, c: int)
    requires a <= b <= c
    ensures Matching(spec, zone, a, b) + Matching(spec, zone, b, c) == Matching(spec, zone, a, c)
    decreases c - b
  {
    if b < c {
      MatchingAdds(spec, zone, a, b, c - 1);
      Assoc(Matching(spec, zone, a, b), Matching(spec, zone, b, c - 1), if Matches(spec, zone(c)) then [c * MINUTE] else []);
    }
  }

  /** Adjacent windows neither lose nor repeat an occurrence, whatever the time zone does. */
  lemma FireTimesAdd(spec: Spec, zone: Zone, start: int, middle: int, end: int)
    requires start <= middle <= end
    ensures FireTimes(spec, zone, start, middle) + FireTimes(spec, zone, middle, end) == FireTimes(spec, zone, start, end)
  {
    MinutesMonotone(start, middle);
    MinutesMonotone(middle, end);
    MatchingAdds(spec, zone, start / MINUTE, middle / MINUTE, end / MINUTE);
  }

  lemma MinutesMonotone(a: int, b: int)
    requires a <= b
    ensures a / MINUTE <= b / MINUTE
  {
    var q, r := a / MINUTE, b / MINUTE;
    assert a == q * MINUTE + a % MINUTE && b == r * MINUTE + b % MINUTE;
  }

  predicate IsOccurrence(spec: Spec, zone: Zone, t: int) {
    t % MINUTE == 0 && Matches(spec, zone(t / MINUTE))
  }

  lemma {:induction false} MatchingIff(spec: Spec, zone: Zone, lo: int, hi: int, m: int)
    ensures m * MINUTE in Matching(spec, zone, lo, hi) <==> lo < m <= hi && Matches(spec, zone(m))
    decreases hi - lo
  {
    if lo < hi {
      MatchingIff(spec, zone, lo, hi - 1, m);
      assert m * MINUTE == hi * MINUTE <==> m == hi;
    }
  }

  lemma {:induction false} MatchingAreMinutes(spec: Spec, zone: Zone, lo: int, hi: int, i: nat)
    requires i < |Matching(spec, zone, lo, hi)|
    ensures var t := Matching(spec, zone, lo, hi)[i]; t == (t / MINUTE) * MINUTE && lo < t / MINUTE <= hi
    decreases hi - lo
  {
    if i < |Matching(spec, zone, lo, hi - 1)| {
      MatchingAreMinutes(spec, zone, lo, hi - 1, i);
    } else {
      assert hi * MINUTE / MINUTE == hi;
    }
  }

  lemma WindowMinutes(start: int, end: int, t: int)
    requires t % MINUTE == 0
    ensures start < t <= end <==> start / MINUTE < t / MINUTE <= end / MINUTE
  {
    var m := t / MINUTE;
    assert t == m * MINUTE;
    assert start == (start / MINUTE) * MINUTE + start % MINUTE && end == (end / MINUTE) * MINUTE + end % MINUTE;
  }

  // `datetime.weekday()`
  const MONDAY := 0
  const FRIDAY := 4

  lemma {:induction false} FireTimesAre(spec: Spec, zone: Zone, start: int, end: int, t: int)
    ensures t in FireTimes(spec, zone, start, end) <==> start < t <= end && IsOccurrence(spec, zone, t)
  {
    var lo, hi := start / MINUTE, end / MINUTE;
    if t % MINUTE == 0 {
      assert t == (t / MINUTE) * MINUTE;
      MatchingIff(spec, zone, lo, hi, t / MINUTE);
      WindowMinutes(start, end, t);
    } else if t in FireTimes(spec, zone, start, end) {
      var i :| 0 <= i < |Matching(spec, zone, lo, hi)| && Matching(spec, zone, lo, hi)[i] == t;
      MatchingAreMinutes(spec, zone, lo, hi, i);
      assert false;
    }
  }

  /**
   The fire times are exactly the whole minutes of (start, end] at which the local clock shows the
   full hour, or the given time: every day, from Monday to Friday, or on Mondays.
   */
  lemma FireTimesIff(spec: Spec, zone: Zone, start: int, end: int, t: int)
    ensures t in FireTimes(spec, zone, start, end) <==>
            && start < t <= end && t % MINUTE == 0
            && var local := zone(t / MINUTE);
               if spec.Hourly? then local.minute == 0
               else && local.hour == spec.hour && local.minute == spec.minute
                    && (spec.kind.Weekdays? ==> local.weekday <= FRIDAY)
                    && (spec.kind.Weekly? ==> local.weekday == MONDAY)
  {
    FireTimesAre(spec, zone, start, end, t);
  }

  /** They come in strictly ascending order. */
  lemma {:induction false} MatchingAscends(spec: Spec, zone: Zone, lo: int, hi: int, i: nat, j: nat)
    requires i < j < |Matching(spec, zone, lo, hi)|
    ensures Matching(spec, zone, lo, hi)[i] < Matching(spec, zone, lo, hi)[j]
    decreases hi - lo
  {
    if j < |Matching(spec, zone, lo, hi - 1)| {
      MatchingAscends(spec, zone, lo, hi - 1, i, j);
    } else {
      MatchingAreMinutes(spec, zone, lo, hi - 1, i);
    }
  }

  /** At the same clock time, weekly occurrences are weekday ones and weekday ones are daily ones. */
  lemma KindsNest(zone: Zone, hour: nat, minute: nat, start: int, end: int, t: int)
    ensures t in FireTimes(At(Weekly, hour, minute), zone, start, end) ==> t in FireTimes(At(Weekdays, hour, minute), zone, start, end)
    ensures t in FireTimes(At(Weekdays, hour, minute), zone, start, end) ==> t in FireTimes(At(Daily, hour, minute), zone, start, end)
    ensures t in FireTimes(At(Daily, hour, 0), zone, start, end) ==> t in FireTimes(Hourly, zone, start, end)
  {
    FireTimesAre(At(Weekly, hour, minute), zone, start, end, t);
    FireTimesAre(At(Weekdays, hour, minute), zone, start, end, t);
    FireTimesAre(At(Daily, hour, minute), zone, start, end, t);
    FireTimesAre(At(Daily, hour, 0), zone, start, end, t);
    FireTimesAre(Hourly, zone, start, end, t);
  }

  // ----- the operation ---------------------------------------------------------------------------------

  /**
   The checks in the order of the code, and the loop over minutes.  An empty window is
   answered before the notation or the zone is looked at.
   */
  method AutomationFireTimes(digits: DigitTable, schedule: string, zone: Option<Zone>, start: Instant, end: Instant)
    returns (r: Result<seq<int>, Failure>)
    ensures start.Naive? || end.Naive? ==> r == Err(NaiveWindow)
    ensures start.Aware? && end.Aware? && end.utc <= start.utc ==> r == Ok([])
    ensures start.Aware? && end.Aware? && start.utc < end.utc ==>
              r == if Parse(digits, schedule).Err? then Err(Parse(digits, schedule).error)
                   else if zone.None? then Err(UnknownZone)
                   else Ok(FireTimes(Parse(digits, schedule).value, zone.value, start.utc, end.utc))
  {
    if start.Naive? || end.Naive? {
      return Err(NaiveWindow);
    }
    if end.utc <= start.utc {
      return Ok([]);
    }
    var parsed := Parse(digits, schedule);
    if parsed.Err? {
      return Err(parsed.error);
    }
    if zone.None? {
      return Err(UnknownZone);
    }
    var spec := parsed.value;
    var cursor := start.utc / MINUTE;
    if cursor * MINUTE <= start.utc {
      cursor := cursor + 1;
    }
    MinutesMonotone(start.utc, end.utc);
    var fires: seq<int> := [];
    while cursor * MINUTE <= end.utc
      invariant start.utc / MINUTE + 1 <= cursor <= end.utc / MINUTE + 1
      invariant fires == Matching(spec, zone.value, start.utc / MINUTE, cursor - 1)
      decreases end.utc / MINUTE + 1 - cursor
    {
      WindowMinutes(start.utc, end.utc, cursor * MINUTE);
      if Matches(spec, zone.value(cursor)) {
        fires := fires + [cursor * MINUTE];
      }
      cursor := cursor + 1;
    }
    return Ok(fires);
  }
}
