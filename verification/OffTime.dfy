/** The exclude-off-time step: whole days of interval arithmetic against a second-by-second
    reading of the off-hours windows. */
module OffTime {
  import opened Types

  // ---------------------------------------------------------------- specification: counting seconds

  /** The second `t` lies in the window's time of day, every day. */
  predicate InWindow(w: OffWindow, t: int) {
    var secs := t % SECONDS_PER_DAY;
    var from, to := w.startMinute * SECONDS_PER_MINUTE, w.endMinute * SECONDS_PER_MINUTE;
    if w.endMinute > w.startMinute then from <= secs < to else secs < to || from <= secs
  }

  /** How many seconds of `[a, b)` lie in `w`. */
  function CountIn(w: OffWindow, a: int, b: int): nat
    decreases b - a
  {
    if b <= a then 0 else CountIn(w, a, b - 1) + if InWindow(w, b - 1) then 1 else 0
  }

  function OffSeconds(windows: seq<OffWindow>, a: int, b: int): nat {
    if windows == [] then 0
    else OffSeconds(windows[..|windows| - 1], a, b) + CountIn(windows[|windows| - 1], a, b)
  }

  lemma {:induction false} CountSplits(w: OffWindow, a: int, b: int, c: int)
    requires a <= b <= c
    ensures CountIn(w, a, c) == CountIn(w, a, b) + CountIn(w, b, c)
    decreases c - b
  {
    if b < c { CountSplits(w, a, b, c - 1); }
  }

  /** Splitting an interval splits its off-time: nothing is counted twice or lost. */
  lemma {:induction false} OffSecondsSplit(windows: seq<OffWindow>, a: int, b: int, c: int)
    requires a <= b <= c
    ensures OffSeconds(windows, a, c) == OffSeconds(windows, a, b) + OffSeconds(windows, b, c)
  {
    if windows != [] {
      OffSecondsSplit(windows[..|windows| - 1], a, b, c);
      CountSplits(windows[|windows| - 1], a, b, c);
    }
  }

  // ---------------------------------------------------------------- the step's own arithmetic

  function OverlapSeconds(start: int, end: int, lo: int, hi: int): int {
    var l, h := Max(start, lo), Min(end, hi);
    if h <= l then 0 else h - l
  }

  /** The part of `[start, end)` in the window on the day that begins at `midnight`. A window
      that wraps has a tail and a head on every day. */
  function WindowOverlap(midnight: int, w: OffWindow, start: int, end: int): int {
    var from, to := w.startMinute * SECONDS_PER_MINUTE, w.endMinute * SECONDS_PER_MINUTE;
    if w.endMinute > w.startMinute then
      OverlapSeconds(start, end, midnight + from, midnight + to)
    else
      OverlapSeconds(start, end, midnight, midnight + to)
      + OverlapSeconds(start, end, midnight + from, midnight + SECONDS_PER_DAY)
  }

  function DayStart(t: int): int {
    t - t % SECONDS_PER_DAY
  }

  lemma {:induction false} CountTwoPieces(w: OffWindow, x: int, y: int, lo1: int, hi1: int, lo2: int, hi2: int)
    requires hi1 <= lo2
    requires forall t :: x <= t < y ==> (InWindow(w, t) <==> lo1 <= t < hi1 || lo2 <= t < hi2)
    ensures CountIn(w, x, y) == OverlapSeconds(x, y, lo1, hi1) + OverlapSeconds(x, y, lo2, hi2)
    decreases y - x
  {
    if x < y { CountTwoPieces(w, x, y - 1, lo1, hi1, lo2, hi2); }
  }

  lemma SecondOfDay(midnight: int, t: int)
    requires midnight % SECONDS_PER_DAY == 0 && midnight <= t < midnight + SECONDS_PER_DAY
    ensures t % SECONDS_PER_DAY == t - midnight
  {
  }

  /** On one day the two pieces count exactly the window's seconds of the clipped interval. */
  lemma DayOverlap(midnight: int, w: OffWindow, start: int, end: int)
    requires midnight % SECONDS_PER_DAY == 0 && ValidWindow(w)
    ensures WindowOverlap(midnight, w, start, end)
         == CountIn(w, Max(start, midnight), Min(end, midnight + SECONDS_PER_DAY))
  {
    var x, y := Max(start, midnight), Min(end, midnight + SECONDS_PER_DAY);
    var from, to := midnight + w.startMinute * SECONDS_PER_MINUTE, midnight + w.endMinute * SECONDS_PER_MINUTE;
    forall t | x <= t < y
      ensures t % SECONDS_PER_DAY == t - midnight
    {
      SecondOfDay(midnight, t);
    }
    if w.endMinute > w.startMinute {
      CountTwoPieces(w, x, y, from, to, to, to);
    } else {
      CountTwoPieces(w, x, y, midnight, to, from, midnight + SECONDS_PER_DAY);
    }
  }

  lemma EmptyInterval(windows: seq<OffWindow>, a: int, b: int)
    requires b <= a
    ensures OffSeconds(windows, a, b) == 0
  {
  }

  lemma OneMoreWindow(windows: seq<OffWindow>, i: nat, a: int, b: int)
    requires i < |windows|
    ensures OffSeconds(windows[..i + 1], a, b) == OffSeconds(windows[..i], a, b) + CountIn(windows[i], a, b)
  {
    assert windows[..i + 1][..i] == windows[..i];
  }

  /** The day loop agrees with counting every second, for any interval and any windows. */
  method TotalOverlap(start: int, end: int, offHours: seq<OffWindow>) returns (total: int)
    requires forall w :: w in offHours ==> ValidWindow(w)
    ensures total == OffSeconds(offHours, start, end)
  {
    total := 0;
    if end <= start {
      EmptyInterval(offHours, start, end);
      return;
    }
    var day := DayStart(start);
    EmptyInterval(offHours, start, day);
    while day < end
      invariant day % SECONDS_PER_DAY == 0 && day < end + SECONDS_PER_DAY
      invariant start < day + SECONDS_PER_DAY
      invariant total == OffSeconds(offHours, start, Min(day, end))
    {
      ghost var x, y := Max(start, day), Min(end, day + SECONDS_PER_DAY);
      for i := 0 to |offHours|
        invariant total == OffSeconds(offHours, start, day) + OffSeconds(offHours[..i], x, y)
      {
        DayOverlap(day, offHours[i], start, end);
        OneMoreWindow(offHours, i, x, y);
        total := total + WindowOverlap(day, offHours[i], start, end);
      }
      assert offHours[..|offHours|] == offHours;
      if start <= day { OffSecondsSplit(offHours, start, day, y); } else { EmptyInterval(offHours, start, day); }
      day := day + SECONDS_PER_DAY;
    }
  }

  /** The duration a session has after the step. */
  function Excluded(s: Session, offHours: seq<OffWindow>): Session {
    if offHours == [] then s
    else s.(durationSeconds := Max(0, s.durationSeconds - OffSeconds(offHours, s.start, s.end)))
  }

  function ExcludeAll(sessions: seq<Session>, offHours: seq<OffWindow>): seq<Session> {
    seq(|sessions|, i requires 0 <= i < |sessions| => Excluded(sessions[i], offHours))
  }

  /** Only durations have changed, each by the seconds off, and none below zero. */
  ghost predicate OnlyTimeTakenOff(before: seq<Session>, after: seq<Session>, offHours: seq<OffWindow>) {
    && |after| == |before| && (offHours == [] ==> after == before)
    && forall i :: 0 <= i < |after| ==>
         && after[i] == before[i].(durationSeconds := after[i].durationSeconds)
         && (offHours != [] ==>
               var left := before[i].durationSeconds - OffSeconds(offHours, before[i].start, before[i].end);
               after[i].durationSeconds == if left > 0 then left else 0)
  }

  method Apply(s: State, offHours: seq<OffWindow>)
    requires forall w :: w in offHours ==> ValidWindow(w)
    modifies s`sessions
    ensures s.sessions == ExcludeAll(old(s.sessions), offHours)
    ensures OnlyTimeTakenOff(old(s.sessions), s.sessions, offHours)
  {
    if offHours == [] {
      return;
    }
    ghost var before := s.sessions;
    for i := 0 to |s.sessions|
      invariant |s.sessions| == |before|
      invariant forall k :: 0 <= k < |before| ==>
        s.sessions[k] == if k < i then Excluded(before[k], offHours) else before[k]
    {
      var overlap := TotalOverlap(s.sessions[i].start, s.sessions[i].end, offHours);
      s.sessions := s.sessions[i := s.sessions[i].(durationSeconds := Max(0, s.sessions[i].durationSeconds - overlap))];
    }
  }

  // ---------------------------------------------------------------- what is left of a session

  predicate IsOff(windows: seq<OffWindow>, t: int) {
    exists i :: 0 <= i < |windows| && InWindow(windows[i], t)
  }

  /** The seconds of `[a, b)` outside every window. */
  function OnSeconds(windows: seq<OffWindow>, a: int, b: int): nat
    decreases b - a
  {
    if b <= a then 0 else OnSeconds(windows, a, b - 1) + if IsOff(windows, b - 1) then 0 else 1
  }

  /** How many windows hold the second `t`. */
  function Hits(windows: seq<OffWindow>, t: int): nat {
    if windows == [] then 0
    else Hits(windows[..|windows| - 1], t) + if InWindow(windows[|windows| - 1], t) then 1 else 0
  }

  predicate Doubled(windows: seq<OffWindow>, t: int) {
    exists i, j :: 0 <= i < j < |windows| && InWindow(windows[i], t) && InWindow(windows[j], t)
  }

  lemma {:induction false} HitsMean(windows: seq<OffWindow>, t: int)
    ensures Hits(windows, t) > 0 <==> IsOff(windows, t)
    ensures Hits(windows, t) > 1 <==> Doubled(windows, t)
  {
    if windows != [] {
      var front, last := windows[..|windows| - 1], windows[|windows| - 1];
      HitsMean(front, t);
      assert IsOff(windows, t) <==> IsOff(front, t) || InWindow(last, t) by {
        if IsOff(front, t) { var i :| 0 <= i < |front| && InWindow(front[i], t); assert windows[i] == front[i]; }
        if InWindow(last, t) { assert InWindow(windows[|windows| - 1], t); }
      }
      assert Doubled(windows, t) <==> Doubled(front, t) || (IsOff(front, t) && InWindow(last, t)) by {
        if Doubled(front, t) {
          var i, j :| 0 <= i < j < |front| && InWindow(front[i], t) && InWindow(front[j], t);
          assert windows[i] == front[i] && windows[j] == front[j];
        }
        if IsOff(front, t) && InWindow(last, t) {
          var i :| 0 <= i < |front| && InWindow(front[i], t);
          assert windows[i] == front[i] && InWindow(windows[|windows| - 1], t);
        }
        if Doubled(windows, t) {
          var i, j :| 0 <= i < j < |windows| && InWindow(windows[i], t) && InWindow(windows[j], t);
          assert windows[i] == front[i];
          assert j < |front| ==> windows[j] == front[j];
        }
      }
    }
  }

  lemma {:induction false} LastSecond(windows: seq<OffWindow>, a: int, b: int)
    requires a < b
    ensures OffSeconds(windows, a, b) == OffSeconds(windows, a, b - 1) + Hits(windows, b - 1)
  {
    if windows != [] { LastSecond(windows[..|windows| - 1], a, b); }
  }

  ghost predicate NoneDoubled(windows: seq<OffWindow>, a: int, b: int) {
    forall t :: a <= t < b ==> !Doubled(windows, t)
  }

  ghost predicate AllOff(windows: seq<OffWindow>, a: int, b: int) {
    forall t :: a <= t < b ==> IsOff(windows, t)
  }

  /** Off and on seconds fill the interval, and overfill it where windows overlap. */
  lemma {:induction false} OffAndOn(windows: seq<OffWindow>, a: int, b: int)
    requires a <= b
    ensures OffSeconds(windows, a, b) + OnSeconds(windows, a, b) >= b - a
    ensures OffSeconds(windows, a, b) + OnSeconds(windows, a, b) == b - a <==> NoneDoubled(windows, a, b)
    ensures OnSeconds(windows, a, b) == 0 <==> AllOff(windows, a, b)
    decreases b - a
  {
    if a == b {
      EmptyInterval(windows, a, b);
    } else {
      OffAndOn(windows, a, b - 1);
      LastSecond(windows, a, b);
      HitsMean(windows, b - 1);
      assert NoneDoubled(windows, a, b) <==> NoneDoubled(windows, a, b - 1) && !Doubled(windows, b - 1);
      assert AllOff(windows, a, b) <==> AllOff(windows, a, b - 1) && IsOff(windows, b - 1);
    }
  }

  /** A sessionized session keeps its lead-in plus exactly the seconds outside every window,
      if and only if no second of it lies in two windows; the one exception is a session
      without lead-in that is off throughout, which ends at zero either way. */
  lemma ExactIffNotDoubled(s: Session, leadIn: nat, offHours: seq<OffWindow>)
    requires s.start <= s.end && s.durationSeconds == s.end - s.start + leadIn
    ensures Excluded(s, offHours).durationSeconds == leadIn + OnSeconds(offHours, s.start, s.end)
      <==> NoneDoubled(offHours, s.start, s.end) || (leadIn == 0 && AllOff(offHours, s.start, s.end))
  {
    OffAndOn(offHours, s.start, s.end);
    if offHours == [] { EmptyMeansOn(s.start, s.end); }
  }

  lemma {:induction false} EmptyMeansOn(a: int, b: int)
    requires a <= b
    ensures OnSeconds([], a, b) == b - a && OffSeconds([], a, b) == 0
    decreases b - a
  {
    if a < b { EmptyMeansOn(a, b - 1); }
  }

  lemma LunchHour()
    ensures CountIn(OffWindow(720, 780), 43200, 46800) == 3600
    ensures forall t :: 43200 <= t < 46800 ==> InWindow(OffWindow(720, 780), t)
  {
    DayOverlap(0, OffWindow(720, 780), 43200, 46800);
    forall t | 43200 <= t < 46800
      ensures InWindow(OffWindow(720, 780), t)
    {
      SecondOfDay(0, t);
    }
  }

  /** Where windows do overlap the step takes their common time off twice: an hour of lunch
      declared twice also eats the hour of lead-in. */
  lemma OverlappingWindowsLoseTime()
    ensures var lunch := OffWindow(720, 780);
            var s := Session("o", "", 43200, 46800, 7200, 2);
            s.durationSeconds == s.end - s.start + 3600
            && Excluded(s, [lunch, lunch]).durationSeconds == 0
            && 3600 + OnSeconds([lunch, lunch], s.start, s.end) == 3600
  {
    var lunch := OffWindow(720, 780);
    var windows := [lunch, lunch];
    LunchHour();
    OneMoreWindow(windows, 0, 43200, 46800);
    OneMoreWindow(windows, 1, 43200, 46800);
    assert windows[..2] == windows && OffSeconds(windows, 43200, 46800) == 7200;
    hide CountIn, InWindow;
    forall t | 43200 <= t < 46800
      ensures IsOff(windows, t)
    {
      assert InWindow(windows[0], t);
    }
    OffAndOn(windows, 43200, 46800);
  }

  predicate MinuteIn(w: OffWindow, m: int) {
    if w.endMinute > w.startMinute then w.startMinute <= m < w.endMinute else m < w.endMinute || w.startMinute <= m
  }

  /** What a caller can check beforehand: no minute of the day is in two windows. */
  ghost predicate DisjointWindows(windows: seq<OffWindow>) {
    forall i, j, m :: 0 <= i < j < |windows| && 0 <= m < 1440 ==> !(MinuteIn(windows[i], m) && MinuteIn(windows[j], m))
  }

  lemma SecondToMinute(w: OffWindow, t: int)
    ensures var m := t % SECONDS_PER_DAY / SECONDS_PER_MINUTE; 0 <= m < 1440 && (InWindow(w, t) <==> MinuteIn(w, m))
  {
  }

  /** With disjoint windows the clamp at zero never cuts anything off. */
  lemma DisjointWindowsAreExact(s: Session, leadIn: nat, offHours: seq<OffWindow>)
    requires s.start <= s.end && s.durationSeconds == s.end - s.start + leadIn
    requires DisjointWindows(offHours)
    ensures Excluded(s, offHours).durationSeconds == leadIn + OnSeconds(offHours, s.start, s.end)
    ensures s.durationSeconds - OffSeconds(offHours, s.start, s.end) >= 0
  {
    forall t | s.start <= t < s.end
      ensures !Doubled(offHours, t)
    {
      forall i, j | 0 <= i < j < |offHours|
        ensures !(InWindow(offHours[i], t) && InWindow(offHours[j], t))
      {
        SecondToMinute(offHours[i], t);
        SecondToMinute(offHours[j], t);
      }
    }
    OffAndOn(offHours, s.start, s.end);
    ExactIffNotDoubled(s, leadIn, offHours);
  }
}
