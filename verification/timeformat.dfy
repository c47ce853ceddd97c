/** The elapsed-time formatter of the participant's tracking screen
    (`formatTime` in components/ParticipantTracking.tsx) and a reader for
    the clock faces it produces. */
module TimeFormat {
  import opened Common
  import opened Strings

  // ---------------------------------------------------------------------
  // formatTime
  // ---------------------------------------------------------------------

  /** A duration split into clock fields. */
  datatype Hms = Hms(hours: nat, minutes: nat, seconds: nat)

  /** Hours, minutes and seconds of a number of seconds, as `formatTime`
      computes them with `Math.floor` and `%` on a non-negative count. */
  function TimeParts(total: nat): (r: Hms)
    ensures r.hours * 3600 + r.minutes * 60 + r.seconds == total
    ensures r.minutes < 60 && r.seconds < 60
    ensures r.hours > 0 <==> total >= 3600
  {
    SplitSeconds(total);
    Hms(total / 3600, (total % 3600) / 60, total % 60)
  }

  /** The arithmetic behind `TimeParts`: the minutes and seconds of the
      remainder below an hour are the minutes and seconds of the total. */
  lemma SplitSeconds(total: nat)
    ensures (total / 3600) * 3600 + ((total % 3600) / 60) * 60 + total % 60 == total
    ensures (total % 3600) / 60 < 60
  {
    var q, rem := total / 3600, total % 3600;
    var m, sec := rem / 60, rem % 60;
    assert rem == 60 * m + sec;
    SecondsOfMinutes(total, 60 * q + m, sec);
  }

  /** A count of whole minutes plus fewer than 60 seconds leaves exactly
      those seconds over. */
  lemma SecondsOfMinutes(total: nat, minutes: nat, sec: nat)
    requires total == 60 * minutes + sec && sec < 60
    ensures total % 60 == sec
  {
  }

  /** `String(n).padStart(2, '0')`. */
  function Pad2(n: nat): (r: string)
    ensures |r| >= 2
    ensures n < 100 ==> |r| == 2
  {
    PadStart(NatToString(n), 2, '0')
  }

  /** The padded rendering is a decimal rendering of the same number. */
  lemma Pad2Digits(n: nat)
    ensures ParseField(Pad2(n)) == Some(n)
  {
    NatToStringValue(n);
    ZeroPadValue(NatToString(n), 2);
  }

  /** The clock face from its padded fields: `HH:MM:SS` when the hours
      field is shown, `MM:SS` otherwise. */
  function Clock(hh: string, mm: string, ss: string, withHours: bool): string
  {
    if withHours then hh + ":" + (mm + ":" + ss) else mm + ":" + ss
  }

  /** `formatTime`: `MM:SS`, or `HH:MM:SS` once there is at least one hour;
      the short form is exactly the clock of a time under an hour. */
  function FormatTime(total: nat): (r: string)
    ensures |r| == 5 <==> total < 3600
  {
    var t := TimeParts(total);
    Clock(Pad2(t.hours), Pad2(t.minutes), Pad2(t.seconds), t.hours > 0)
  }

  /** Where the fields of a clock face without hours sit. */
  lemma ShortFields(hh: string, mm: string, ss: string)
    requires |mm| == 2 && |ss| == 2
    ensures var r := Clock(hh, mm, ss, false);
            |r| == 5 && r[2] == ':' && r[..2] == mm && r[3..] == ss
  {
    var r := Clock(hh, mm, ss, false);
    assert r[..2] == mm;
    assert r[3..] == ss;
  }

  /** Where the fields of a clock face `r` with hours sit, and what they
      read. */
  lemma LongFields(r: string, hh: string, mm: string, ss: string, hv: nat, mv: nat, sv: nat)
    requires r == Clock(hh, mm, ss, true)
    requires |hh| >= 2 && |mm| == 2 && |ss| == 2
    requires ParseField(hh) == Some(hv) && ParseField(mm) == Some(mv) && ParseField(ss) == Some(sv)
    ensures |r| >= 8 && r[|r| - 6] == ':' && r[|r| - 3] == ':'
    ensures ParseField(r[..|r| - 6]) == Some(hv)
    ensures ParseField(r[|r| - 5..|r| - 3]) == Some(mv)
    ensures ParseField(r[|r| - 2..]) == Some(sv)
  {
    assert r[..|r| - 6] == hh;
    assert r[|r| - 5..|r| - 3] == mm;
    assert r[|r| - 2..] == ss;
  }

  /** Whole minutes and leftover seconds of a count below an hour. */
  lemma MinutesAndSeconds(total: nat, m: nat, sec: nat)
    requires total == 60 * m + sec && sec < 60
    ensures m == total / 60 && sec == total % 60
  {
  }

  /** Under an hour the clock reads `MM:SS`: two digits of whole minutes, a
      colon, two digits of leftover seconds. */
  lemma FormatTimeUnderAnHour(total: nat)
    requires total < 3600
    ensures var r := FormatTime(total);
            && |r| == 5 && r[2] == ':'
            && ParseField(r[..2]) == Some(total / 60)
            && ParseField(r[3..]) == Some(total % 60)
  {
    var t := TimeParts(total);
    assert t.hours == 0;
    MinutesAndSeconds(total, t.minutes, t.seconds);
    Pad2Digits(t.minutes);
    Pad2Digits(t.seconds);
    ShortFields(Pad2(t.hours), Pad2(t.minutes), Pad2(t.seconds));
  }

  /** From an hour on the clock reads `HH:MM:SS`: the hours in full, padded
      to at least two digits, then two digits each of the minutes and
      seconds left over. */
  lemma FormatTimeFromAnHour(total: nat)
    requires total >= 3600
    ensures var r := FormatTime(total);
            var t := TimeParts(total);
            && t.hours * 3600 + t.minutes * 60 + t.seconds == total
            && t.minutes < 60 && t.seconds < 60
            && |r| >= 8 && r[|r| - 6] == ':' && r[|r| - 3] == ':'
            && ParseField(r[..|r| - 6]) == Some(t.hours)
            && ParseField(r[|r| - 5..|r| - 3]) == Some(t.minutes)
            && ParseField(r[|r| - 2..]) == Some(t.seconds)
  {
    var t := TimeParts(total);
    Pad2Digits(t.hours);
    Pad2Digits(t.minutes);
    Pad2Digits(t.seconds);
    LongFields(FormatTime(total), Pad2(t.hours), Pad2(t.minutes), Pad2(t.seconds), t.hours, t.minutes, t.seconds);
  }

  /** A field of digits read as a number; None if it holds anything else. */
  function ParseField(f: string): (r: Option<nat>)
    ensures r.Some? <==> AllDigits(f)
    ensures r.Some? ==> r.value == DecimalValue(f)
  {
    if AllDigits(f) then Some(DecimalValue(f)) else None
  }

  /** Reads a `MM:SS` clock into seconds. */
  function ParseShort(t: string): Option<nat>
    requires |t| == 5
  {
    var mm := ParseField(t[..2]);
    var ss := ParseField(t[3..]);
    if t[2] != ':' || mm.None? || ss.None? then None
    else Some(60 * mm.value + ss.value)
  }

  /** Reads an `H...H:MM:SS` clock into seconds. */
  function ParseLong(t: string): Option<nat>
    requires |t| >= 6
  {
    var k := |t| - 6;
    var hh := ParseField(t[..k]);
    if t[k] != ':' || hh.None? then None
    else
      match ParseShort(t[k + 1..])
      case None => None
      case Some(ms) => Some(3600 * hh.value + ms)
  }

  /** Reads a `MM:SS` or `H...H:MM:SS` clock back into seconds; None for
      anything of another shape. */
  function ParseTime(t: string): Option<nat>
  {
    if |t| == 5 then ParseShort(t)
    else if |t| >= 8 then ParseLong(t)
    else None
  }

  /** Reading back a clock face without hours. */
  lemma ShortClockRoundTrip(mm: string, ss: string, mv: nat, sv: nat, total: nat)
    requires |mm| == 2 && |ss| == 2
    requires ParseField(mm) == Some(mv) && ParseField(ss) == Some(sv)
    requires total == 60 * mv + sv
    ensures ParseShort(mm + ":" + ss) == Some(total)
    ensures forall hh :: ParseTime(Clock(hh, mm, ss, false)) == Some(total)
  {
    var t := mm + ":" + ss;
    assert t[3..] == ss;
    assert t[..2] == mm;
  }

  /** Reading back a clock face with an hours field. */
  lemma LongClockRoundTrip(hh: string, mm: string, ss: string, hv: nat, mv: nat, sv: nat, total: nat)
    requires |hh| >= 2 && |mm| == 2 && |ss| == 2
    requires ParseField(hh) == Some(hv) && ParseField(mm) == Some(mv) && ParseField(ss) == Some(sv)
    requires total == 3600 * hv + 60 * mv + sv
    ensures ParseTime(Clock(hh, mm, ss, true)) == Some(total)
  {
    var u := mm + ":" + ss;
    var t := hh + ":" + u;
    ShortClockRoundTrip(mm, ss, mv, sv, 60 * mv + sv);
    var k := |t| - 6;
    assert k == |hh| && t[k] == ':';
    assert t[..k] == hh;
    assert t[k + 1..] == u;
    assert ParseLong(t) == Some(total);
  }

  /** Reading a clock face back gives the hours, minutes and seconds it was
      made from, combined into seconds. */
  lemma ClockRoundTrip(h: nat, m: nat, s: nat, total: nat)
    requires m < 100 && s < 100
    requires total == 3600 * h + 60 * m + s
    ensures ParseTime(Clock(Pad2(h), Pad2(m), Pad2(s), h > 0)) == Some(total)
  {
    Pad2Digits(h);
    Pad2Digits(m);
    Pad2Digits(s);
    var hh, mm, ss := Pad2(h), Pad2(m), Pad2(s);
    if h > 0 {
      LongClockRoundTrip(hh, mm, ss, h, m, s, total);
    } else {
      ShortClockRoundTrip(mm, ss, m, s, total);
    }
  }

  /** The rendering loses nothing: reading the clock back gives the number
      of seconds it was made from, so minutes and seconds are two digits
      each and the hours are shown in full. */
  lemma FormatTimeRoundTrip(total: nat)
    ensures ParseTime(FormatTime(total)) == Some(total)
  {
    var t := TimeParts(total);
    ClockRoundTrip(t.hours, t.minutes, t.seconds, total);
  }
}
