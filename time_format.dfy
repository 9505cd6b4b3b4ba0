/** The call timer's clock text (`formatTimeCounter`,
    chatapp/src/lib/utils.ts): a number of elapsed seconds shown as
    `m:ss`, or as `h:mm:ss` from one hour on. */
module TimeFormat {
  import opened Common

  /** A number with a "0" put in front when it is below ten. */
  function ZeroPad(n: nat): string {
    (if n < 10 then "0" else "") + NatToString(n)
  }

  /** Below one hundred the padded number has two digits and reads back as itself. */
  lemma ZeroPadReads(n: nat)
    requires n < 100
    ensures |ZeroPad(n)| == 2 && AllDigits(ZeroPad(n)) && ParseNat(ZeroPad(n)) == n
  {
    NatToStringParses(n);
    if n < 10 {
      LeadingZero(NatToString(n));
    }
  }

  /** The template both clocks fill in: `h:mm:ss` when there are hours,
      else `m:ss`, each field after the first padded to two digits. */
  function ClockText(hours: nat, minutes: nat, seconds: nat): string {
    if hours > 0 then NatToString(hours) + ":" + ZeroPad(minutes) + ":" + ZeroPad(seconds)
    else NatToString(minutes) + ":" + ZeroPad(seconds)
  }

  /** The clock as the source writes it: the minutes field is the total
      number of minutes, not reduced below sixty in the hours form. Below
      one hour it reads back as the elapsed time. */
  function FormatTimeCounterAsWritten(time: nat): (r: string)
    ensures time < 3600 ==> ReadClock(r) == Some(time)
  {
    if time < 3600 then
      assert time / 3600 == 0 && time / 60 < 60 && time / 60 * 60 + time % 60 == time;
      ClockTextReads(0, time / 60, time % 60);
      ClockText(time / 3600, time / 60, time % 60)
    else ClockText(time / 3600, time / 60, time % 60)
  }

  /** The clock with the minutes field reduced modulo sixty: it always reads
      back as the elapsed time. */
  function FormatTimeCounter(time: nat): (r: string)
    ensures ReadClock(r) == Some(time)
  {
    ClockFields(time);
    ClockTextReads(time / 3600, time / 60 % 60, time % 60);
    ClockText(time / 3600, time / 60 % 60, time % 60)
  }

  /** A field of one or more digits, and its value. */
  function Numeral(s: string): Option<nat> {
    if |s| >= 1 && AllDigits(s) then Some(ParseNat(s)) else None
  }

  /** A two-digit minutes or seconds field, below sixty. */
  function Sexagesimal(s: string): Option<nat> {
    if |s| == 2 && AllDigits(s) && ParseNat(s) < 60 then Some(ParseNat(s)) else None
  }

  /** The reading of a clock text: `m:ss` or `h:mm:ss`, every field a
      numeral, minutes and seconds below sixty; the seconds it stands for. */
  function ReadClock(s: string): Option<nat> {
    if |s| < 4 || s[|s| - 3] != ':' || Sexagesimal(s[|s| - 2..]).None? then None
    else
      var seconds := Sexagesimal(s[|s| - 2..]).value;
      var front := s[..|s| - 3];
      if |front| >= 4 && front[|front| - 3] == ':' then
        var hours := Numeral(front[..|front| - 3]);
        var minutes := Sexagesimal(front[|front| - 2..]);
        if hours.Some? && minutes.Some? then Some(hours.value * 3600 + minutes.value * 60 + seconds) else None
      else if Numeral(front).Some? && Numeral(front).value < 60 then Some(Numeral(front).value * 60 + seconds)
      else None
  }

  lemma ZeroPadField(n: nat)
    requires n < 60
    ensures Sexagesimal(ZeroPad(n)) == Some(n)
  {
    ZeroPadReads(n);
  }

  /** A field, a colon and a two-character field split back into the two. */
  lemma SplitAtColon(a: string, b: string)
    requires |b| == 2
    ensures var s := a + ":" + b;
            && |s| == |a| + 3 && s[|s| - 3] == ':' && s[|s| - 2..] == b && s[..|s| - 3] == a
  {
  }

  lemma {:induction false} ReadsMinutesForm(minutes: nat, seconds: nat)
    requires minutes < 60 && seconds < 60
    ensures ReadClock(NatToString(minutes) + ":" + ZeroPad(seconds)) == Some(minutes * 60 + seconds)
  {
    var front := NatToString(minutes);
    ZeroPadField(seconds);
    ZeroPadReads(seconds);
    NatToStringParses(minutes);
    SplitAtColon(front, ZeroPad(seconds));
  }

  lemma {:induction false} ReadsHoursForm(hours: nat, minutes: nat, seconds: nat)
    requires hours >= 1 && minutes < 60 && seconds < 60
    ensures ReadClock(NatToString(hours) + ":" + ZeroPad(minutes) + ":" + ZeroPad(seconds))
              == Some(hours * 3600 + minutes * 60 + seconds)
  {
    var front := NatToString(hours) + ":" + ZeroPad(minutes);
    ZeroPadField(seconds);
    ZeroPadField(minutes);
    ZeroPadReads(seconds);
    ZeroPadReads(minutes);
    NatToStringParses(hours);
    SplitAtColon(front, ZeroPad(seconds));
    SplitAtColon(NatToString(hours), ZeroPad(minutes));
    assert Numeral(NatToString(hours)) == Some(hours);
  }

  lemma ClockTextReads(hours: nat, minutes: nat, seconds: nat)
    requires minutes < 60 && seconds < 60
    ensures ReadClock(ClockText(hours, minutes, seconds)) == Some(hours * 3600 + minutes * 60 + seconds)
  {
    if hours > 0 {
      ReadsHoursForm(hours, minutes, seconds);
    } else {
      ReadsMinutesForm(minutes, seconds);
    }
  }

  /** Hours, minutes below sixty and seconds below sixty make up the time. */
  lemma ClockFields(time: nat)
    ensures time / 60 % 60 < 60 && time % 60 < 60
    ensures time / 3600 * 3600 + time / 60 % 60 * 60 + time % 60 == time
    ensures time / 3600 == 0 ==> time / 60 % 60 * 60 + time % 60 == time
  {
    var q, s := time / 60, time % 60;
    var h, m := q / 60, q % 60;
    assert time == 60 * q + s;
    assert q == 60 * h + m;
    assert time == 3600 * h + (60 * m + s);
    assert time / 3600 == h;
  }

  /** Below one hour the two clocks are the same text. */
  lemma SameBelowOneHour(time: nat)
    requires time < 3600
    ensures FormatTimeCounterAsWritten(time) == FormatTimeCounter(time)
  {
    assert time / 60 % 60 == time / 60;
  }

  lemma {:induction false} AsWrittenAt3661()
    ensures FormatTimeCounterAsWritten(3661) == "1:61:01"
  {
    assert 3661 / 3600 == 1 && 3661 / 60 == 61 && 3661 % 60 == 1;
    assert FormatTimeCounterAsWritten(3661) == ClockText(1, 61, 1);
    assert NatToString(61) == NatToString(6) + [DigitChar(1)];
    assert ZeroPad(61) == "61" && ZeroPad(1) == "01" && NatToString(1) == "1";
  }

  lemma {:induction false} CorrectedAt3661()
    ensures FormatTimeCounter(3661) == "1:01:01"
  {
    assert 3661 / 3600 == 1 && 3661 / 60 % 60 == 1 && 3661 % 60 == 1;
    assert FormatTimeCounter(3661) == ClockText(1, 1, 1);
    assert ZeroPad(1) == "01" && NatToString(1) == "1";
    assert ClockText(1, 1, 1) == "1" + ":" + "01" + ":" + "01";
  }

  lemma {:induction false} UnreadableClock()
    ensures ReadClock("1:61:01") == None
  {
    var s := "1:61:01";
    assert s[|s| - 2..] == "01" && s[..|s| - 3] == "1:61";
    assert "1:61"[2..] == "61";
    assert ParseNat("61") == 61 by {
      assert "61"[..1] == "6" && "6"[..0] == "";
    }
    assert ParseNat("01") == 1 by {
      assert "01"[..1] == "0" && "0"[..0] == "";
    }
    assert Sexagesimal("61") == None;
  }

  /** One hour, one minute and one second: the source shows `1:61:01`,
      which no clock reading accepts; the corrected clock shows `1:01:01`. */
  lemma {:induction false} MinutesNotReduced()
    ensures FormatTimeCounterAsWritten(3661) == "1:61:01"
    ensures ReadClock(FormatTimeCounterAsWritten(3661)) == None
    ensures FormatTimeCounter(3661) == "1:01:01"
  {
    AsWrittenAt3661();
    UnreadableClock();
    CorrectedAt3661();
  }
}
