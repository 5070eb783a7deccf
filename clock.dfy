/**
 * Minutes of the day and their `HH:MM` text. The schedule shift builds a `Date`,
 * sets its hour and its minute plus a delta, and reads the clock back. Leaving
 * daylight-saving transitions aside, that is addition modulo one day.
 */
module Clock {
  import opened JsText
  import opened JsNumber

  const MinutesPerDay: int := 24 * 60

  /** `getHours() * 60 + getMinutes()`: the minute of the day a clock reading stands for. */
  type MinuteOfDay = m: int | 0 <= m < MinutesPerDay

  /** The minute of the day the clock shows after `setHours(h); setMinutes(m + delta)`, with `v == h * 60 + m`. */
  function ShiftMinute(v: int, delta: int): (r: int)
    ensures 0 <= r < MinutesPerDay
  {
    (v + delta) % MinutesPerDay
  }

  /** `getHours().toString().padStart(2, '0') + ":" + getMinutes().toString().padStart(2, '0')`. */
  function FormatHM(minute: int): (t: string)
    requires 0 <= minute < MinutesPerDay
    ensures |t| == 5 && t[2] == ':'
  {
    Pad2(minute / 60) + ":" + Pad2(minute % 60)
  }

  /** Parsing the formatted text returns the minute it was made from, whichever parser is used. */
  lemma ParseFormatHM(minute: int)
    requires 0 <= minute < MinutesPerDay
    ensures TimeMinutes(FormatHM(minute)) == Num(minute)
    ensures TimeMinutesInt(FormatHM(minute)) == Num(minute)
  {
    var h, m := minute / 60, minute % 60;
    assert h * 60 + m == minute;
    ReadDigitPairNumber(Pad2(h), Pad2(m), h, m);
    ReadDigitPairInt(Pad2(h), Pad2(m), h, m);
  }

  /** The characters of the formatted text, digit by digit. */
  lemma FormatHMChars(minute: int)
    requires 0 <= minute < MinutesPerDay
    ensures FormatHM(minute) == [DigitChar(minute / 60 / 10), DigitChar(minute / 60 % 10), ':',
                                 DigitChar(minute % 60 / 10), DigitChar(minute % 60 % 10)]
  {
    Pad2Digits(minute / 60);
    Pad2Digits(minute % 60);
  }

  lemma LexLessCons(x: char, a: string, y: char, b: string)
    ensures LexLess([x] + a, [y] + b) <==> x < y || (x == y && LexLess(a, b))
  {
    assert ([x] + a)[1..] == a && ([y] + b)[1..] == b;
  }

  lemma DigitCharOrder(d: nat, e: nat)
    requires d < 10 && e < 10
    ensures DigitChar(d) < DigitChar(e) <==> d < e
    ensures DigitChar(d) == DigitChar(e) <==> d == e
  {
  }

  /** Code-unit order on five-character strings, position by position. */
  lemma LexLessFive(s: string, t: string)
    requires |s| == 5 && |t| == 5
    ensures LexLess(s, t) <==>
      s[0] < t[0] || (s[0] == t[0] && (s[1] < t[1] || (s[1] == t[1] && (s[2] < t[2] || (s[2] == t[2] &&
      (s[3] < t[3] || (s[3] == t[3] && s[4] < t[4])))))))
  {
    LexLessCons(s[0], s[1..], t[0], t[1..]);
    LexLessCons(s[1], s[2..], t[1], t[2..]);
    LexLessCons(s[2], s[3..], t[2], t[3..]);
    LexLessCons(s[3], s[4..], t[3], t[4..]);
    LexLessCons(s[4], s[5..], t[4], t[5..]);
    assert s == [s[0]] + s[1..] && s[1..] == [s[1]] + s[2..] && s[2..] == [s[2]] + s[3..];
    assert s[3..] == [s[3]] + s[4..] && s[4..] == [s[4]] + s[5..] && s[5..] == [];
    assert t == [t[0]] + t[1..] && t[1..] == [t[1]] + t[2..] && t[2..] == [t[2]] + t[3..];
    assert t[3..] == [t[3]] + t[4..] && t[4..] == [t[4]] + t[5..] && t[5..] == [];
  }

  /** Comparing two numbers below 100 is comparing their tens digits, then their units digits. */
  lemma TwoDigitOrder(x: int, y: int)
    requires 0 <= x < 100 && 0 <= y < 100
    ensures x < y <==> x / 10 < y / 10 || (x / 10 == y / 10 && x % 10 < y % 10)
    ensures x == y <==> x / 10 == y / 10 && x % 10 == y % 10
  {
  }

  /** Comparing two minutes of the day is comparing their hours, then their minutes. */
  lemma HourMinuteOrder(a: int, b: int)
    requires 0 <= a < MinutesPerDay && 0 <= b < MinutesPerDay
    ensures a < b <==> a / 60 < b / 60 || (a / 60 == b / 60 && a % 60 < b % 60)
    ensures a / 60 < 24 && b / 60 < 24
  {
  }

  /** Sorting formatted times as text sorts them by minute: text order and numeric order agree. */
  lemma FormatHMOrder(a: int, b: int)
    requires 0 <= a < MinutesPerDay && 0 <= b < MinutesPerDay
    ensures LexLess(FormatHM(a), FormatHM(b)) <==> a < b
  {
    var ha, ma, hb, mb := a / 60, a % 60, b / 60, b % 60;
    HourMinuteOrder(a, b);
    var s, t := FormatHM(a), FormatHM(b);
    FormatHMChars(a);
    FormatHMChars(b);
    assert s[0] == DigitChar(ha / 10) && s[1] == DigitChar(ha % 10) && s[2] == ':';
    assert s[3] == DigitChar(ma / 10) && s[4] == DigitChar(ma % 10);
    assert t[0] == DigitChar(hb / 10) && t[1] == DigitChar(hb % 10) && t[2] == ':';
    assert t[3] == DigitChar(mb / 10) && t[4] == DigitChar(mb % 10);
    TwoDigitTextOrder(ha, hb);
    TwoDigitTextOrder(ma, mb);
    LexLessFive(s, t);
  }

  /** Two numbers below 100 compare as the characters of their two digits do. */
  lemma TwoDigitTextOrder(x: int, y: int)
    requires 0 <= x < 100 && 0 <= y < 100
    ensures x < y <==> (DigitChar(x / 10) < DigitChar(y / 10)
      || (DigitChar(x / 10) == DigitChar(y / 10) && DigitChar(x % 10) < DigitChar(y % 10)))
    ensures x == y <==> DigitChar(x / 10) == DigitChar(y / 10) && DigitChar(x % 10) == DigitChar(y % 10)
  {
    TwoDigitOrder(x, y);
    DigitCharOrder(x / 10, y / 10);
    DigitCharOrder(x % 10, y % 10);
  }

  /** The text the shift writes into a block: the shifted minute, or `"NaN:NaN"` when the old time did not parse. */
  function ShiftedTime(t: string, delta: int): (r: string)
    ensures |r| == 7 <==> TimeMinutes(t).NaN?
  {
    match TimeMinutes(t)
    case Num(v) => FormatHM(ShiftMinute(v, delta))
    case NaN => "NaN:NaN"
  }

  /** A shifted time reads back as the old minute plus the delta, wrapped into the day. */
  lemma ShiftedTimeReads(t: string, delta: int)
    requires TimeMinutes(t).Num?
    ensures TimeMinutes(ShiftedTime(t, delta)) == Num(ShiftMinute(TimeMinutes(t).v, delta))
  {
    ParseFormatHM(ShiftMinute(TimeMinutes(t).v, delta));
  }
}
