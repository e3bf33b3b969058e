/**
 * Time text on the TV board: the `HH:MM:SS` rendering of an elapsed time,
 * and the reading of the server's `YYYY-MM-DDTHH:mm:ss` local timestamps
 * into calendar fields (the conversion of those fields to an instant is the
 * browser's and is left to a parameter of the board).
 */
module Clock {
  import opened Wrappers
  import opened Text

  /** `pad2(x)`: the number's decimal text, zero-padded on the left to two characters. */
  function Pad2(n: nat): (r: string)
    ensures |r| >= 2 && ParseNat(r) == Some(n)
    ensures n < 100 ==> |r| == 2
  {
    PaddedNat(n, 2);
    assert Pow10(2) == 100;
    PadStart(NatToString(n), 2)
  }

  /** `Math.max(0, Math.floor(ms / 1000))`: whole seconds, never negative. */
  function TotalSeconds(ms: int): (sec: nat)
    ensures ms >= 0 ==> sec * 1000 <= ms < sec * 1000 + 1000
    ensures ms < 0 ==> sec == 0
  {
    if ms / 1000 < 0 then 0 else ms / 1000
  }

  /** Reads `H:MM:SS` text back into hours, minutes and seconds; the hours take everything before the last six characters. */
  function DecodeHMS(r: string): Option<(nat, nat, nat)>
  {
    if |r| >= 8 && r[|r| - 6] == ':' && r[|r| - 3] == ':' then
      match (ParseNat(r[..|r| - 6]), ParseNat(r[|r| - 5..|r| - 3]), ParseNat(r[|r| - 2..]))
      case (Some(h), Some(m), Some(s)) => Some((h, m, s))
      case _ => None
    else None
  }

  /** Hours, minutes and seconds of a number of seconds, as `formatHMS` splits it. */
  lemma SplitSeconds(total: nat)
    ensures (total % 3600) / 60 < 60 && total % 60 < 60
    ensures (total / 3600) * 3600 + ((total % 3600) / 60) * 60 + total % 60 == total
    ensures total < 360000 ==> total / 3600 < 100
  {
  }

  /** Where the three parts of `a:b:c` sit when the minutes and seconds take two characters each. */
  lemma ColonLayout(a: string, b: string, c: string)
    requires |a| >= 2 && |b| == 2 && |c| == 2
    ensures var r := a + ":" + b + ":" + c;
      |r| >= 8 && r[|r| - 6] == ':' && r[|r| - 3] == ':' &&
      r[..|r| - 6] == a && r[|r| - 5..|r| - 3] == b && r[|r| - 2..] == c
  {
    var r := a + ":" + b + ":" + c;
    assert r == a + (":" + b + ":" + c);
  }

  /** Any three numerals joined by colons, the last two of two characters, read back as their numbers. */
  lemma DecodeColons(a: string, b: string, c: string, h: nat, m: nat, s: nat)
    requires |a| >= 2 && |b| == 2 && |c| == 2
    requires ParseNat(a) == Some(h) && ParseNat(b) == Some(m) && ParseNat(c) == Some(s)
    ensures DecodeHMS(a + ":" + b + ":" + c) == Some((h, m, s))
  {
    var r := a + ":" + b + ":" + c;
    ColonLayout(a, b, c);
    assert r[..|r| - 6] == a && r[|r| - 5..|r| - 3] == b && r[|r| - 2..] == c;
  }

  /** Three padded numbers joined by colons read back as those numbers. */
  lemma DecodeJoined(h: nat, m: nat, s: nat)
    requires m < 100 && s < 100
    ensures DecodeHMS(Pad2(h) + ":" + Pad2(m) + ":" + Pad2(s)) == Some((h, m, s))
  {
    DecodeColons(Pad2(h), Pad2(m), Pad2(s), h, m, s);
  }

  /** `formatHMS(ms)`: hours, minutes and seconds of the whole seconds of `ms`, each padded to two digits, joined by colons. */
  function FormatHMS(ms: int): (r: string)
    ensures |r| >= 8
  {
    var total := TotalSeconds(ms);
    Pad2(total / 3600) + ":" + Pad2((total % 3600) / 60) + ":" + Pad2(total % 60)
  }

  /**
   * The text reads back as hours, minutes under 60 and seconds under 60 that
   * add up to the whole seconds of `ms` (0 for a negative `ms`); it is eight
   * characters while the hours stay under 100.
   */
  lemma FormatHMSReadsBack(ms: int)
    ensures DecodeHMS(FormatHMS(ms)).Some?
    ensures var t := DecodeHMS(FormatHMS(ms)).value;
      t.0 * 3600 + t.1 * 60 + t.2 == TotalSeconds(ms) && t.1 < 60 && t.2 < 60
    ensures TotalSeconds(ms) < 360000 ==> |FormatHMS(ms)| == 8
  {
    var total := TotalSeconds(ms);
    SplitSeconds(total);
    DecodeJoined(total / 3600, (total % 3600) / 60, total % 60);
  }

  /** A negative duration (a start in the future) shows as zero. */
  lemma FormatHMSNegative(ms: int)
    requires ms < 0
    ensures FormatHMS(ms) == "00:00:00"
  {
    Pad2Zero();
  }

  lemma Pad2Zero()
    ensures Pad2(0) == "00"
  {
    NatToStringSmall(0);
  }

  /** The calendar fields `new Date(Y, Mo - 1, D, H, Mi, S)` receives; the month is already shifted to 0-based. */
  datatype LocalDateTime = LocalDateTime(year: int, monthIndex: int, day: int, hour: int, minute: int, second: int)

  predicate DigitsBetween(s: string, lo: nat, hi: nat)
    requires lo <= hi <= |s|
  {
    AllDigits(s[lo..hi])
  }

  /** The text begins with `\d{4}-\d{2}-\d{2}T\d{2}:\d{2}:\d{2}`. */
  predicate IsStampPrefix(s: string)
  {
    && |s| >= 19
    && DigitsBetween(s, 0, 4) && s[4] == '-'
    && DigitsBetween(s, 5, 7) && s[7] == '-'
    && DigitsBetween(s, 8, 10) && s[10] == 'T'
    && DigitsBetween(s, 11, 13) && s[13] == ':'
    && DigitsBetween(s, 14, 16) && s[16] == ':'
    && DigitsBetween(s, 17, 19)
  }

  /**
   * `parseLocalDateTime(s)`: nothing for an absent or empty text or one that
   * does not begin with a timestamp, otherwise the six fields of its first
   * 19 characters with the month made 0-based.
   */
  function ParseLocalDateTime(s: Option<string>): (r: Option<LocalDateTime>)
    ensures r.Some? <==> s.Some? && IsStampPrefix(s.value)
    ensures s.None? || s.value == "" ==> r.None?
  {
    if s.None? || s.value == "" || !IsStampPrefix(s.value) then None
    else
      var t := s.value;
      Some(LocalDateTime(
        DigitsValue(t[0..4]), DigitsValue(t[5..7]) - 1, DigitsValue(t[8..10]),
        DigitsValue(t[11..13]), DigitsValue(t[14..16]), DigitsValue(t[17..19])))
  }

  /** Text after the seconds has no effect on the result. */
  lemma ParseIgnoresTrailingText(s: string, rest: string)
    requires IsStampPrefix(s)
    ensures ParseLocalDateTime(Some(s + rest)) == ParseLocalDateTime(Some(s))
  {
    var t := s + rest;
    assert t[..19] == s[..19];
    assert forall lo, hi :: 0 <= lo <= hi <= 19 ==> t[lo..hi] == s[lo..hi];
    assert IsStampPrefix(t) by {
      assert forall lo, hi :: 0 <= lo <= hi <= 19 ==> t[lo..hi] == s[lo..hi];
    }
  }

  /** The positions of the six fields in a timestamp assembled from its parts. */
  lemma StampLayout(a: string, b: string, c: string, d: string, e: string, f: string)
    requires |a| == 4 && |b| == 2 && |c| == 2 && |d| == 2 && |e| == 2 && |f| == 2
    ensures var r := a + "-" + b + "-" + c + "T" + d + ":" + e + ":" + f;
      && |r| == 19 && r[0..4] == a && r[4] == '-' && r[5..7] == b && r[7] == '-' && r[8..10] == c
      && r[10] == 'T' && r[11..13] == d && r[13] == ':' && r[14..16] == e && r[16] == ':' && r[17..19] == f
  {
    var left := a + "-" + b + "-" + c;
    var right := "T" + d + ":" + e + ":" + f;
    assert left[0..4] == a && left[5..7] == b && left[8..10] == c;
    assert right[1..3] == d && right[4..6] == e && right[7..9] == f;
    var r := a + "-" + b + "-" + c + "T" + d + ":" + e + ":" + f;
    assert r == left + right;
    assert r[0..10] == left && r[10..19] == right;
    assert r[0..4] == left[0..4] && r[5..7] == left[5..7] && r[8..10] == left[8..10];
    assert r[11..13] == right[1..3] && r[14..16] == right[4..6] && r[17..19] == right[7..9];
  }

  /** The year's text: the number zero-padded to four characters. */
  function Pad4(n: nat): (r: string)
    requires n < 10000
    ensures |r| == 4 && AllDigits(r) && ParseNat(r) == Some(n)
  {
    PaddedNat(n, 4);
    assert Pow10(4) == 10000;
    PadStart(NatToString(n), 4)
  }

  /** The server's rendering of a date and time: `YYYY-MM-DDTHH:mm:ss`. */
  function FormatStamp(year: nat, month: nat, day: nat, hour: nat, minute: nat, second: nat): (r: string)
    requires year < 10000 && month < 100 && day < 100 && hour < 100 && minute < 100 && second < 100
    ensures |r| == 19 && IsStampPrefix(r)
  {
    StampLayout(Pad4(year), Pad2(month), Pad2(day), Pad2(hour), Pad2(minute), Pad2(second));
    Pad4(year) + "-" + Pad2(month) + "-" + Pad2(day) + "T" + Pad2(hour) + ":" + Pad2(minute) + ":" + Pad2(second)
  }

  /** A timestamp whose six fields are numerals reads back as their numbers, with the month made 0-based. */
  lemma ParseFields(r: string, a: string, b: string, c: string, d: string, e: string, f: string,
                    year: nat, month: nat, day: nat, hour: nat, minute: nat, second: nat)
    requires IsStampPrefix(r)
    requires r[0..4] == a && r[5..7] == b && r[8..10] == c && r[11..13] == d && r[14..16] == e && r[17..19] == f
    requires ParseNat(a) == Some(year) && ParseNat(b) == Some(month) && ParseNat(c) == Some(day)
    requires ParseNat(d) == Some(hour) && ParseNat(e) == Some(minute) && ParseNat(f) == Some(second)
    ensures ParseLocalDateTime(Some(r)) == Some(LocalDateTime(year, month - 1, day, hour, minute, second))
  {
  }

  /** Reading back a rendered timestamp, whatever follows it, gives its fields with the month made 0-based. */
  lemma ParseFormatStamp(year: nat, month: nat, day: nat, hour: nat, minute: nat, second: nat, rest: string)
    requires year < 10000 && month < 100 && day < 100 && hour < 100 && minute < 100 && second < 100
    ensures ParseLocalDateTime(Some(FormatStamp(year, month, day, hour, minute, second) + rest))
         == Some(LocalDateTime(year, month - 1, day, hour, minute, second))
  {
    var a, b, c, d, e, f := Pad4(year), Pad2(month), Pad2(day), Pad2(hour), Pad2(minute), Pad2(second);
    var r := FormatStamp(year, month, day, hour, minute, second);
    assert r == a + "-" + b + "-" + c + "T" + d + ":" + e + ":" + f;
    StampLayout(a, b, c, d, e, f);
    ParseFields(r, a, b, c, d, e, f, year, month, day, hour, minute, second);
    ParseIgnoresTrailingText(r, rest);
  }
}
