/**
 * The status classifier and the "time ago" formatter of src/lib/status-logic.ts.
 * Timestamps are integer milliseconds since the epoch; the current time is a parameter.
 * Hours are Dafny reals, so the comparisons are exact.
 */
module StatusLogic {
  import opened Http
  import opened Text

  /** The three health states of src/components/ServiceCard.tsx. */
  datatype ServiceStatus = Nominal | Warning | Offline

  /** A total order on the states, from healthy to failed. */
  function Severity(s: ServiceStatus): nat {
    match s
    case Nominal => 0
    case Warning => 1
    case Offline => 2
  }

  const MillisPerHour: int := 1000 * 60 * 60

  /** The 20% grace buffer past the schedule before silence counts as offline. */
  const Grace: real := 1.2

  function ElapsedHours(lastPing: int, now: int): real {
    (now - lastPing) as real / MillisPerHour as real
  }

  /** `reported?.toLowerCase() === word`. */
  predicate Reports(reported: Option<string>, word: string) {
    reported.Some? && Lower(reported.value) == word
  }

  predicate ReportsFailure(reported: Option<string>) {
    Reports(reported, "error") || Reports(reported, "failure")
  }

  /**
   * `calculateStatus`: `lastPing` is `None` for an empty or missing cell.
   * The contract gives, for each state, exactly when it is chosen.
   */
  function CalculateStatus(lastPing: Option<int>, scheduleHours: real, reported: Option<string>, now: int)
    : (r: ServiceStatus)
    ensures r == Offline <==>
      || lastPing.None?
      || ReportsFailure(reported)
      || (!Reports(reported, "warning") && ElapsedHours(lastPing.value, now) > scheduleHours * Grace)
    ensures r == Warning <==>
      && lastPing.Some?
      && !ReportsFailure(reported)
      && (|| Reports(reported, "warning")
          || (&& ElapsedHours(lastPing.value, now) <= scheduleHours * Grace
              && ElapsedHours(lastPing.value, now) > scheduleHours))
    ensures r == Nominal <==>
      && lastPing.Some?
      && !ReportsFailure(reported)
      && !Reports(reported, "warning")
      && ElapsedHours(lastPing.value, now) <= scheduleHours * Grace
      && ElapsedHours(lastPing.value, now) <= scheduleHours
  {
    match lastPing
    case None => Offline
    case Some(t) =>
      var hours := ElapsedHours(t, now);
      if ReportsFailure(reported) then Offline
      else if Reports(reported, "warning") then Warning
      else if hours > scheduleHours * Grace then Offline
      else if hours > scheduleHours then Warning
      else Nominal
  }

  /** A reported failure wins over a fresh ping, in any letter case. */
  lemma ReportedFailureAtPingTime(t: int, scheduleHours: real, reported: string)
    requires Lower(reported) == "error" || Lower(reported) == "failure"
    ensures CalculateStatus(Some(t), scheduleHours, Some(reported), t) == Offline
  {
  }

  /** A reported warning wins over the clock, however old or fresh the ping. */
  lemma ReportedWarningIgnoresClock(t: int, scheduleHours: real, now: int)
    ensures CalculateStatus(Some(t), scheduleHours, Some("WARNING"), now) == Warning
    ensures CalculateStatus(Some(t), scheduleHours, Some("Warning"), now) == Warning
  {
  }

  /** With no reported status, the state never improves as the ping ages. */
  lemma {:induction false} SeverityMonotone(older: int, newer: int, scheduleHours: real, reported: Option<string>, now: int)
    requires older <= newer
    requires !ReportsFailure(reported) && !Reports(reported, "warning")
    ensures Severity(CalculateStatus(Some(newer), scheduleHours, reported, now))
         <= Severity(CalculateStatus(Some(older), scheduleHours, reported, now))
  {
    assert ElapsedHours(newer, now) <= ElapsedHours(older, now) by {
      assert (now - newer) as real <= (now - older) as real;
    }
  }

  /** Both thresholds are strict: landing exactly on one keeps the lower state. */
  lemma ThresholdsAreStrict(t: int, scheduleHours: real, now: int)
    requires scheduleHours > 0.0
    ensures ElapsedHours(t, now) == scheduleHours ==> CalculateStatus(Some(t), scheduleHours, None, now) == Nominal
    ensures ElapsedHours(t, now) == scheduleHours * Grace ==> CalculateStatus(Some(t), scheduleHours, None, now) == Warning
  {
  }

  /** A 24-hour job: 26 hours of silence is a warning, 30 hours is offline, a ping just now is nominal. */
  lemma DailyJobExamples(t: int)
    ensures CalculateStatus(Some(t), 24.0, None, t + 26 * MillisPerHour) == Warning
    ensures CalculateStatus(Some(t), 24.0, None, t + 30 * MillisPerHour) == Offline
    ensures CalculateStatus(Some(t), 24.0, None, t) == Nominal
  {
  }

  /** The units `formatTimeAgo` prints, each with its length in seconds. */
  datatype Unit = Seconds | Minutes | Hours | Days

  function UnitSeconds(u: Unit): nat {
    match u
    case Seconds => 1
    case Minutes => 60
    case Hours => 3600
    case Days => 86400
  }

  function UnitSuffix(u: Unit): string {
    match u
    case Seconds => "s ago"
    case Minutes => "m ago"
    case Hours => "h ago"
    case Days => "d ago"
  }

  /** The whole seconds elapsed, `Math.floor(ms / 1000)`. */
  function ElapsedSeconds(lastPing: int, now: int): int {
    (now - lastPing) / 1000
  }

  /** `formatTimeAgo`: `lastPing` is `None` for an empty or missing cell. */
  function FormatTimeAgo(lastPing: Option<int>, now: int): (r: string)
    ensures lastPing.None? <==> r == "Never"
    ensures lastPing.Some? ==> exists u: Unit :: EndsWith(r, UnitSuffix(u))
  {
    match lastPing
    case None => "Never"
    case Some(t) =>
      var seconds := ElapsedSeconds(t, now);
      if seconds < 60 then
        assert EndsWith(IntToString(seconds) + "s ago", UnitSuffix(Seconds));
        IntToString(seconds) + "s ago"
      else
        var minutes := seconds / 60;
        if minutes < 60 then
          assert EndsWith(NatToString(minutes) + "m ago", UnitSuffix(Minutes));
          NatToString(minutes) + "m ago"
        else
          var hours := minutes / 60;
          if hours < 24 then
            assert EndsWith(NatToString(hours) + "h ago", UnitSuffix(Hours));
            NatToString(hours) + "h ago"
          else
            assert EndsWith(NatToString(hours / 24) + "d ago", UnitSuffix(Days));
            NatToString(hours / 24) + "d ago"
  }

  /** The nested floors of the source equal one division by the unit's length. */
  lemma NestedFloors(s: int)
    ensures s / 60 / 60 == s / 3600
    ensures s / 60 / 60 / 24 == s / 86400
  {
    var m, h := s / 60, s / 60 / 60;
    assert s == 3600 * h + 60 * (m % 60) + s % 60;
    assert s == 86400 * (h / 24) + 3600 * (h % 24) + 60 * (m % 60) + s % 60;
  }

  /** For a non-negative age, which unit is printed and the number before it. */
  lemma TimeAgoUnit(t: int, now: int)
    requires ElapsedSeconds(t, now) >= 0
    ensures var s := ElapsedSeconds(t, now);
      FormatTimeAgo(Some(t), now) ==
        if s < 60 then NatToString(s) + "s ago"
        else if s < 3600 then NatToString(s / 60) + "m ago"
        else if s < 86400 then NatToString(s / 3600) + "h ago"
        else NatToString(s / 86400) + "d ago"
  {
    NestedFloors(ElapsedSeconds(t, now));
  }

  /** `r` prints `n` whole units `u` of an age of `s` seconds, and `u` is the largest unit that fits. */
  predicate LargestWholeUnit(r: string, s: int, u: Unit, n: nat) {
    && r == NatToString(n) + UnitSuffix(u)
    && UnitSeconds(u) * n <= s < UnitSeconds(u) * (n + 1)
    && (u != Seconds ==> n >= 1)
    && (u == Seconds ==> s < 60)
    && (u == Minutes ==> s < 3600)
    && (u == Hours ==> s < 86400)
  }

  /**
   * The largest unit with at least one whole count is printed, truncated:
   * `n` whole units have passed but not `n + 1`.
   */
  lemma TimeAgoLargestWholeUnit(t: int, now: int)
    requires ElapsedSeconds(t, now) >= 0
    ensures exists u: Unit, n: nat :: LargestWholeUnit(FormatTimeAgo(Some(t), now), ElapsedSeconds(t, now), u, n)
  {
    var s := ElapsedSeconds(t, now);
    var r := FormatTimeAgo(Some(t), now);
    TimeAgoUnit(t, now);
    if s < 60 {
      assert LargestWholeUnit(r, s, Seconds, s);
    } else if s < 3600 {
      assert 60 * (s / 60) <= s < 60 * (s / 60 + 1);
      assert LargestWholeUnit(r, s, Minutes, s / 60);
    } else if s < 86400 {
      assert 3600 * (s / 3600) <= s < 3600 * (s / 3600 + 1);
      assert LargestWholeUnit(r, s, Hours, s / 3600);
    } else {
      assert 86400 * (s / 86400) <= s < 86400 * (s / 86400 + 1);
      assert LargestWholeUnit(r, s, Days, s / 86400);
    }
  }
}
