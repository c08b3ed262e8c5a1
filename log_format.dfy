/**
 * The text of one alarm-log line: `[HH:MM:SS.mmm] message`, built from the
 * fields of the wall-clock reading taken when the line is logged.
 */
module LogFormat {
  import opened Decimal

  /** The fields `getHours`, `getMinutes`, `getSeconds` and `getMilliseconds` of a `Date`. */
  datatype Clock = Clock(hours: nat, minutes: nat, seconds: nat, millis: nat)

  /** The ranges a `Date` reports those fields in. */
  predicate ValidClock(c: Clock) {
    c.hours < 24 && c.minutes < 60 && c.seconds < 60 && c.millis < 1000
  }

  /** `${h}:${m}:${s}.${ms}` with the two-digit and three-digit pads. */
  function Timestamp(c: Clock): (t: string)
    ensures |t| >= 12
  {
    Pad(c.hours, 2) + ":" + Pad(c.minutes, 2) + ":" + Pad(c.seconds, 2) + "." + Pad(c.millis, 3)
  }

  /** The text content of a log line. */
  function LogLine(c: Clock, message: string): (line: string)
    ensures |line| == |Timestamp(c)| + 3 + |message| && line[0] == '['
    ensures line[|line| - |message|..] == message
  {
    "[" + Timestamp(c) + "] " + message
  }

  /** Where the four fields and the separators sit in `h:m:s.ms` for field widths 2, 2, 2 and 3. */
  lemma TimeLayout(h: string, m: string, s: string, ms: string)
    requires |h| == 2 && |m| == 2 && |s| == 2 && |ms| == 3
    ensures var t := h + ":" + m + ":" + s + "." + ms;
      && |t| == 12 && t[2] == ':' && t[5] == ':' && t[8] == '.'
      && t[0..2] == h && t[3..5] == m && t[6..8] == s && t[9..12] == ms
  {
  }

  /**
   * For a reading in range, the timestamp is 12 characters `HH:MM:SS.mmm`:
   * separators at fixed places, and each field a digit string reading back
   * as the clock field it came from.
   */
  lemma TimestampShape(c: Clock)
    requires ValidClock(c)
    ensures var t := Timestamp(c);
      && |t| == 12
      && t[2] == ':' && t[5] == ':' && t[8] == '.'
      && AllDigits(t[0..2]) && ValueOf(t[0..2]) == c.hours
      && AllDigits(t[3..5]) && ValueOf(t[3..5]) == c.minutes
      && AllDigits(t[6..8]) && ValueOf(t[6..8]) == c.seconds
      && AllDigits(t[9..12]) && ValueOf(t[9..12]) == c.millis
  {
    assert Pow10(2) == 100 && Pow10(3) == 1000;
    var h, m, s, ms := Pad(c.hours, 2), Pad(c.minutes, 2), Pad(c.seconds, 2), Pad(c.millis, 3);
    PadExactWidth(c.hours, 2);
    PadExactWidth(c.minutes, 2);
    PadExactWidth(c.seconds, 2);
    PadExactWidth(c.millis, 3);
    TimeLayout(h, m, s, ms);
    assert Timestamp(c) == h + ":" + m + ":" + s + "." + ms;
  }

  /**
   * Every log line is `[`, the 12-character timestamp, `] ` and then the
   * message itself, unchanged.
   */
  lemma LogLineShape(c: Clock, message: string)
    requires ValidClock(c)
    ensures var line := LogLine(c, message);
      && |line| == 15 + |message|
      && line[0] == '[' && line[1..13] == Timestamp(c) && line[13..15] == "] "
      && line[15..] == message
  {
    TimestampShape(c);
    var t := Timestamp(c);
    var line := "[" + t + "] " + message;
    assert LogLine(c, message) == line;
    assert line[1..13] == t && line[13..15] == "] " && line[15..] == message;
  }
}
