/** The verification-code countdown (`useCountdown`,
    chatapp/src/hooks/countdown.ts): the milliseconds left until an expiry
    time, shown as `mm:ss`, refreshed every second while time is left. */
module Countdown {
  import opened Common

  /** `calculateTimeLeft`: nothing left without an expiry (an empty or
      unreadable expiry text), otherwise the positive part of the difference. */
  function TimeLeft(expiry: Option<int>, now: int): (ms: nat)
    ensures expiry.None? ==> ms == 0
    ensures expiry.Some? ==> ms == if expiry.value > now then expiry.value - now else 0
  {
    if expiry.None? then 0
    else if expiry.value - now > 0 then expiry.value - now else 0
  }

  /** Nothing is left exactly when there is no expiry or it is not after `now`. */
  lemma TimeLeftZero(expiry: Option<int>, now: int)
    ensures TimeLeft(expiry, now) == 0 <==> expiry.None? || expiry.value <= now
  {
  }

  /** As the clock moves on, the time left never grows. */
  lemma TimeLeftNonIncreasing(expiry: Option<int>, earlier: int, later: int)
    requires earlier <= later
    ensures TimeLeft(expiry, later) <= TimeLeft(expiry, earlier)
  {
  }

  /** Whole minutes of `ms`. */
  function Minutes(ms: nat): nat {
    ms / 1000 / 60
  }

  /** The seconds past the whole minutes. */
  function Seconds(ms: nat): (s: nat)
    ensures s < 60
  {
    ms / 1000 % 60
  }

  /** The two fields together are the whole seconds of `ms`. */
  lemma MinutesAndSeconds(ms: nat)
    ensures Minutes(ms) * 60 + Seconds(ms) == ms / 1000
    ensures Minutes(ms) * 60000 + Seconds(ms) * 1000 <= ms < Minutes(ms) * 60000 + Seconds(ms) * 1000 + 1000
  {
  }

  /** `formatted`: each field left-padded with "0" to two characters. */
  function Formatted(ms: nat): (r: string)
    ensures |r| >= 5 && r[|r| - 3] == ':'
  {
    PaddedNumeral(Minutes(ms));
    PaddedNumeral(Seconds(ms));
    PadStart2(NatToString(Minutes(ms))) + ":" + PadStart2(NatToString(Seconds(ms)))
  }

  lemma {:induction false} PaddedNumeral(n: nat)
    ensures AllDigits(PadStart2(NatToString(n))) && ParseNat(PadStart2(NatToString(n))) == n
    ensures |PadStart2(NatToString(n))| == if n < 100 then 2 else |NatToString(n)|
  {
    NatToStringParses(n);
    if n < 10 {
      LeadingZero(NatToString(n));
    }
  }

  /** `f` is `mm:ss` for `minutes` and `seconds`: the last two characters
      are the seconds, the part before the colon the minutes, at least two
      digits each. */
  predicate ShowsMinutesAndSeconds(f: string, minutes: nat, seconds: nat) {
    && |f| >= 5 && f[|f| - 3] == ':'
    && AllDigits(f[..|f| - 3]) && AllDigits(f[|f| - 2..])
    && ParseNat(f[..|f| - 3]) == minutes && ParseNat(f[|f| - 2..]) == seconds
  }

  /** The text is `mm:ss` and reads back as the whole seconds left. */
  lemma {:induction false} FormattedReadsBack(ms: nat)
    ensures ShowsMinutesAndSeconds(Formatted(ms), Minutes(ms), Seconds(ms))
    ensures Minutes(ms) * 60 + Seconds(ms) == ms / 1000
  {
    var mm := PadStart2(NatToString(Minutes(ms)));
    var ss := PadStart2(NatToString(Seconds(ms)));
    PaddedNumeral(Minutes(ms));
    PaddedNumeral(Seconds(ms));
    NatToStringParses(Minutes(ms));
    var f := Formatted(ms);
    assert f == mm + ":" + ss;
    assert f[..|f| - 3] == mm;
    assert f[|f| - 2..] == ss;
    MinutesAndSeconds(ms);
  }

  /** Below an hour of time left the text is exactly five characters. */
  lemma FormattedWidth(ms: nat)
    requires ms < 3600000
    ensures |Formatted(ms)| == 5
  {
    PaddedNumeral(Minutes(ms));
    PaddedNumeral(Seconds(ms));
  }

  /** The hook's state: the expiry it was given and the time left it last computed. */
  class Timer {
    var expiry: Option<int>
    var timeLeft: int

    predicate Valid()
      reads this
    {
      timeLeft >= 0
    }

    /** `useState(0)`: nothing is known to be left before the first computation. */
    constructor (expiry: Option<int>)
      ensures Valid() && this.expiry == expiry && timeLeft == 0
    {
      this.expiry := expiry;
      timeLeft := 0;
    }

    /** `isExpired`. */
    predicate IsExpired()
      reads this
    {
      timeLeft <= 0
    }

    /** The effect on a new expiry (and on mounting): the time left is recomputed. */
    method SetExpiry(expiry: Option<int>, now: int)
      requires Valid()
      modifies this
      ensures Valid()
      ensures this.expiry == expiry && timeLeft == TimeLeft(expiry, now)
      ensures IsExpired() <==> expiry.None? || expiry.value <= now
    {
      this.expiry := expiry;
      timeLeft := TimeLeft(expiry, now);
    }

    /** One tick of the interval. The interval runs only while time is
        left, so a timer that has expired stays expired until a new expiry. */
    method Tick(now: int)
      requires Valid()
      modifies this`timeLeft
      ensures Valid()
      ensures old(timeLeft) <= 0 ==> timeLeft == old(timeLeft)
      ensures old(timeLeft) > 0 ==> timeLeft == TimeLeft(expiry, now)
    {
      if timeLeft > 0 {
        timeLeft := TimeLeft(expiry, now);
      }
    }
  }
}
