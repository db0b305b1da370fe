/**
 * Baltic regional helpers: the 24-hour clock check used by auction forms, the 12- to
 * 24-hour conversion, phone-number prefixing, the auction countdown, relative
 * timestamps, the browser-locale choice and address layout. Instants are milliseconds;
 * `now` is a parameter.
 */
module RegionalSettings {
  import opened Wrappers
  import opened Strings

  datatype Locale = Estonia | Latvia | Lithuania

  /** The BCP 47 tag of each locale. */
  function Tag(l: Locale): string {
    match l
    case Estonia => "et-EE"
    case Latvia => "lv-LV"
    case Lithuania => "lt-LT"
  }

  const DefaultLocale: Locale := Estonia

  const SecondMs: int := 1000
  const MinuteMs: int := 60 * SecondMs
  const HourMs: int := 60 * MinuteMs
  const DayMs: int := 24 * HourMs

  /**
   * The time pattern `^([01]?[0-9]|2[0-3]):[0-5][0-9]$`: an hour written with one digit
   * (0-9) or two digits (00-23), a colon, and two minute digits (00-59).
   */
  predicate Valid24HourTime(s: string) {
    || (|s| == 4 && IsDigit(s[0]) && s[1] == ':' && '0' <= s[2] <= '5' && IsDigit(s[3]))
    || (|s| == 5 && (('0' <= s[0] <= '1' && IsDigit(s[1])) || (s[0] == '2' && '0' <= s[1] <= '3'))
        && s[2] == ':' && '0' <= s[3] <= '5' && IsDigit(s[4]))
  }

  /** Two-digit rendering of a number below 100, as `padStart(2, '0')` gives it. */
  function TwoDigits(n: nat): (s: string)
    requires n < 100
    ensures |s| == 2 && AllDigits(s)
  {
    [DigitChar(n / 10), DigitChar(n % 10)]
  }

  /** Every hour 0-23 and minute 0-59 passes the check, with the hour padded or not. */
  lemma ClockTimesAreValid(h: nat, m: nat)
    requires h < 24 && m < 60
    ensures Valid24HourTime(TwoDigits(h) + ":" + TwoDigits(m))
    ensures h < 10 ==> Valid24HourTime(NatToString(h) + ":" + TwoDigits(m))
  {
  }

  /**
   * `time.split(':').map(Number)` on a valid time: the hour and the minute it names,
   * always within a day.
   */
  function ClockParts(s: string): (hm: (nat, nat))
    requires Valid24HourTime(s)
    ensures hm.0 < 24 && hm.1 < 60
  {
    var colon := if |s| == 4 then 1 else 2;
    assert AllDigits(s[..colon]) && AllDigits(s[colon + 1..]);
    assert s == s[..colon] + [':'] + s[colon + 1..];
    SplitAtFirst(s[..colon], ':', s[colon + 1..]);
    SplitWhole(s[colon + 1..], ':');
    var parts := Split(s, ":");
    assert parts == [s[..colon], s[colon + 1..]];
    var h := DigitsValue(parts[0]);
    var m := DigitsValue(parts[1]);
    ShortDigitsValue(parts[0]);
    ShortDigitsValue(parts[1]);
    (h, m)
  }

  /** The value of a one- or two-digit string, digit by digit. */
  lemma ShortDigitsValue(s: string)
    requires 1 <= |s| <= 2 && AllDigits(s)
    ensures |s| == 1 ==> DigitsValue(s) == DigitValue(s[0])
    ensures |s| == 2 ==> DigitsValue(s) == 10 * DigitValue(s[0]) + DigitValue(s[1])
  {
    assert s[..|s| - 1][..0] == [];
  }

  /** Reading a padded clock time back gives the hour and the minute. */
  lemma ClockPartsOfTwoDigits(h: nat, m: nat)
    requires h < 24 && m < 60
    ensures ClockParts(TwoDigits(h) + ":" + TwoDigits(m)) == (h, m)
  {
    var hh, mm := TwoDigits(h), TwoDigits(m);
    var s := hh + ":" + mm;
    assert s == hh + [':'] + mm;
    assert ':' !in hh && ':' !in mm by {
      assert IsDigit(hh[0]) && IsDigit(hh[1]) && IsDigit(mm[0]) && IsDigit(mm[1]);
    }
    SplitAtFirst(hh, ':', mm);
    SplitWhole(mm, ':');
    assert s[..2] == hh && s[3..] == mm;
    ShortDigitsValue(TwoDigits(h));
    ShortDigitsValue(TwoDigits(m));
  }

  /** Reading a clock time with a one-digit hour, such as "9:30", back gives its parts. */
  lemma ClockPartsOfOneDigitHour(h: nat, m: nat)
    requires h < 10 && m < 60
    ensures ClockParts(NatToString(h) + ":" + TwoDigits(m)) == (h, m)
  {
    var hh, mm := NatToString(h), TwoDigits(m);
    assert hh == [DigitChar(h)];
    var s := hh + ":" + mm;
    assert s == hh + [':'] + mm;
    assert ':' !in hh && ':' !in mm by {
      assert IsDigit(hh[0]) && IsDigit(mm[0]) && IsDigit(mm[1]);
    }
    SplitAtFirst(hh, ':', mm);
    SplitWhole(mm, ':');
    assert s[..1] == hh && s[2..] == mm;
    ShortDigitsValue(hh);
    ShortDigitsValue(mm);
  }

  /**
   * `convertTo24Hour`: splits on the first space into time and modifier and the time on
   * ':' into hours and minutes; "12" becomes "12" for PM and "00" otherwise, other PM
   * hours gain 12 (through `parseInt`, "NaN" when no digits lead), and the hours are
   * padded to two characters. A missing minutes part renders as "undefined".
   */
  function ConvertTo24Hour(time12h: string): string {
    var parts := Split(time12h, " ");
    var time := parts[0];
    var modifier := if |parts| > 1 then Some(parts[1]) else None;
    var clock := Split(time, ":");
    var hours := clock[0];
    var minutes := if |clock| > 1 then clock[1] else "undefined";
    var hours24 :=
      if hours == "12" then (if modifier == Some("PM") then "12" else "00")
      else if modifier == Some("PM") then
        (match ParseIntPrefix(hours)
         case Some(v) => IntToString(v + 12)
         case None => "NaN")
      else hours;
    PadStart(hours24, 2, '0') + ":" + minutes
  }

  /** The 24-hour hour of a 12-hour clock reading. */
  function Hour24(h: nat, pm: bool): nat
    requires 1 <= h <= 12
  {
    if h == 12 then (if pm then 12 else 0) else if pm then h + 12 else h
  }

  /**
   * On a well-formed "h:mm AM" / "h:mm PM" reading, the conversion gives the 24-hour
   * hour, padded to two digits, and leaves the minutes as they were.
   */
  lemma {:induction false} ConvertTo24HourWellFormed(h: nat, mm: string, pm: bool)
    requires 1 <= h <= 12 && |mm| == 2 && AllDigits(mm)
    ensures ConvertTo24Hour(NatToString(h) + ":" + mm + " " + (if pm then "PM" else "AM"))
         == PadStart(NatToString(Hour24(h, pm)), 2, '0') + ":" + mm
  {
    var hs := NatToString(h);
    var modifier := if pm then "PM" else "AM";
    SplitReading(hs, mm, modifier);
    HoursTwelve(h);
    if h != 12 && pm {
      ParseIntOfNatToString(h);
      assert IntToString(h + 12) == NatToString(Hour24(h, pm));
    }
  }

  /** A reading "hh:mm modifier" splits on the space and then on the colon into its three parts. */
  lemma SplitReading(hs: string, mm: string, modifier: string)
    requires AllDigits(hs) && AllDigits(mm) && ' ' !in modifier
    ensures Split(hs + ":" + mm + " " + modifier, " ") == [hs + ":" + mm, modifier]
    ensures Split(hs + ":" + mm, ":") == [hs, mm]
  {
    var time := hs + ":" + mm;
    NoSpaceInClock(hs, mm);
    assert time + " " + modifier == time + [' '] + modifier;
    SplitAtFirst(time, ' ', modifier);
    SplitWhole(modifier, ' ');
    DigitsHaveNo(hs, ':');
    DigitsHaveNo(mm, ':');
    assert time == hs + [':'] + mm;
    SplitAtFirst(hs, ':', mm);
    SplitWhole(mm, ':');
  }

  /** Only digits are in a string of digits. */
  lemma DigitsHaveNo(s: string, c: char)
    requires AllDigits(s) && !IsDigit(c)
    ensures c !in s
  {
    forall i | 0 <= i < |s| ensures s[i] != c {
      assert IsDigit(s[i]);
    }
  }

  /** "hh:mm" made of digits has no space. */
  lemma NoSpaceInClock(hs: string, mm: string)
    requires AllDigits(hs) && AllDigits(mm)
    ensures ' ' !in hs + ":" + mm
  {
    var time := hs + ":" + mm;
    DigitsHaveNo(hs, ' ');
    DigitsHaveNo(mm, ' ');
    forall i | 0 <= i < |time| ensures time[i] != ' ' {
      if i < |hs| { assert time[i] == hs[i]; }
      else if i > |hs| { assert time[i] == mm[i - |hs| - 1]; }
    }
  }

  /** Among the hours 1-12, only 12 is written "12"; 12 AM renders as "00". */
  lemma HoursTwelve(h: nat)
    requires 1 <= h <= 12
    ensures NatToString(h) == "12" <==> h == 12
    ensures PadStart(NatToString(0), 2, '0') == "00"
  {
    if h >= 10 {
      var hs := NatToString(h);
      assert hs == NatToString(h / 10) + [DigitChar(h % 10)];
      assert hs[1] as int - '0' as int == h % 10;
      assert "12"[1] as int - '0' as int == 2;
    }
  }

  /** `phone.replace(/\D/g, '')`: the digits of the input, in order. */
  function DigitsOnly(s: string): (r: string)
    ensures AllDigits(r) && |r| <= |s|
    ensures AllDigits(s) ==> r == s
    decreases |s|
  {
    if s == [] then []
    else (if IsDigit(s[0]) then [s[0]] else []) + DigitsOnly(s[1..])
  }

  /** Every digit of the input is kept as often as it occurs, and nothing else is. */
  lemma {:induction false} DigitsOnlyCounts(s: string, c: char)
    ensures multiset(DigitsOnly(s))[c] == if IsDigit(c) then multiset(s)[c] else 0
    decreases |s|
  {
    if s != [] {
      assert s == [s[0]] + s[1..];
      DigitsOnlyCounts(s[1..], c);
    }
  }

  /** Keeping the digits of two pieces is keeping the digits of their concatenation. */
  lemma {:induction false} DigitsOnlyAppend(a: string, b: string)
    ensures DigitsOnly(a + b) == DigitsOnly(a) + DigitsOnly(b)
    decreases |a|
  {
    if a == [] {
      assert a + b == b;
    } else {
      var ab := a + b;
      assert ab[0] == a[0] && ab[1..] == a[1..] + b;
      DigitsOnlyAppend(a[1..], b);
      var head := if IsDigit(a[0]) then [a[0]] else [];
      assert DigitsOnly(ab) == head + DigitsOnly(ab[1..]);
      assert DigitsOnly(a) == head + DigitsOnly(a[1..]);
    }
  }

  /** A single character is kept exactly when it is a digit. */
  lemma DigitsOnlyChar(c: char)
    ensures DigitsOnly([c]) == if IsDigit(c) then [c] else []
  {
    assert [c][1..] == [];
  }

  /** The international dialling prefix of each locale. */
  function CountryCode(l: Locale): (code: string)
    ensures |code| == 4 && code[0] == '+' && AllDigits(code[1..])
    ensures l.Estonia? <==> code == "+372"
    ensures l.Latvia? <==> code == "+371"
    ensures l.Lithuania? <==> code == "+370"
  {
    match l
    case Estonia => "+372"
    case Latvia => "+371"
    case Lithuania => "+370"
  }

  /** The digits already start with one of the three Baltic country codes. */
  predicate HasBalticCode(digits: string) {
    StartsWith(digits, "372") || StartsWith(digits, "371") || StartsWith(digits, "370")
  }

  /**
   * `formatPhoneNumber`: keep the digits; a number already carrying a Baltic country
   * code gets a "+", a leading trunk 0 is replaced by the locale's code, and any other
   * number is prefixed with it. The result is "+" followed by digits only.
   */
  function FormatPhoneNumber(phone: string, locale: Locale): (r: string)
    ensures |r| >= 1 && r[0] == '+' && AllDigits(r[1..])
    ensures HasBalticCode(DigitsOnly(phone)) ==> r == "+" + DigitsOnly(phone)
    ensures !HasBalticCode(DigitsOnly(phone)) && StartsWith(DigitsOnly(phone), "0") ==>
              r == CountryCode(locale) + DigitsOnly(phone)[1..]
    ensures !HasBalticCode(DigitsOnly(phone)) && !StartsWith(DigitsOnly(phone), "0") ==>
              r == CountryCode(locale) + DigitsOnly(phone)
  {
    var cleaned := DigitsOnly(phone);
    var code := CountryCode(locale);
    if HasBalticCode(cleaned) then
      assert ("+" + cleaned)[1..] == cleaned;
      "+" + cleaned
    else if StartsWith(cleaned, "0") then
      assert (code + cleaned[1..])[1..] == code[1..] + cleaned[1..];
      code + cleaned[1..]
    else
      assert (code + cleaned)[1..] == code[1..] + cleaned;
      code + cleaned
  }

  /** What the auction countdown shows, chosen by the largest non-zero unit. */
  datatype TimeLeft =
    | Over                                   // "Ended"
    | DaysHours(days: nat, hours: nat)       // "{d}d {h}h"
    | HoursMinutes(hours: nat, minutes: nat) // "{h}h {m}m"
    | MinutesSeconds(minutes: nat, seconds: nat) // "{m}m {s}s"
    | Seconds(seconds: nat)                  // "{s}s"

  /** Whole days, hours, minutes and seconds of a positive duration in milliseconds. */
  function Breakdown(remaining: int): (parts: (nat, nat, nat, nat))
    requires remaining > 0
    ensures parts.1 < 24 && parts.2 < 60 && parts.3 < 60
    ensures var total := parts.0 * DayMs + parts.1 * HourMs + parts.2 * MinuteMs + parts.3 * SecondMs;
            total <= remaining < total + SecondMs
  {
    var days := remaining / DayMs;
    var hours := (remaining % DayMs) / HourMs;
    var minutes := (remaining % HourMs) / MinuteMs;
    var seconds := (remaining % MinuteMs) / SecondMs;
    DayRemainder(remaining);
    HourRemainder(remaining);
    (days, hours, minutes, seconds)
  }

  /** What is left of a day splits into whole hours and what is left of an hour. */
  lemma DayRemainder(x: int)
    ensures x % DayMs == (x % DayMs) / HourMs * HourMs + x % HourMs
  {
    assert DayMs == 86_400_000 && HourMs == 3_600_000;
    var q := x / 86_400_000;
    var r := x % 86_400_000;
    assert x == q * 86_400_000 + r;
    assert x % 3_600_000 == r % 3_600_000;
  }

  /** What is left of an hour splits into whole minutes and what is left of a minute. */
  lemma HourRemainder(x: int)
    ensures x % HourMs == (x % HourMs) / MinuteMs * MinuteMs + x % MinuteMs
  {
    assert HourMs == 3_600_000 && MinuteMs == 60_000;
    var q := x / 3_600_000;
    var r := x % 3_600_000;
    assert x == q * 3_600_000 + r;
    assert x % 60_000 == r % 60_000;
  }

  /** `formatAuctionTimeLeft(endTime)` at instant `now`. */
  function AuctionTimeLeft(endTime: int, now: int): (t: TimeLeft)
    ensures t.Over? <==> endTime - now <= 0
    ensures t.DaysHours? <==> endTime - now >= DayMs
    ensures t.HoursMinutes? <==> HourMs <= endTime - now < DayMs
    ensures t.MinutesSeconds? <==> MinuteMs <= endTime - now < HourMs
    ensures t.Seconds? <==> 0 < endTime - now < MinuteMs
    ensures t.DaysHours? ==> (t.days >= 1 && t.hours < 24
                            && (t.days, t.hours) == (Breakdown(endTime - now).0, Breakdown(endTime - now).1))
    ensures t.HoursMinutes? ==> (1 <= t.hours < 24 && t.minutes < 60
                               && (t.hours, t.minutes) == (Breakdown(endTime - now).1, Breakdown(endTime - now).2))
    ensures t.MinutesSeconds? ==> (1 <= t.minutes < 60 && t.seconds < 60
                                 && (t.minutes, t.seconds) == (Breakdown(endTime - now).2, Breakdown(endTime - now).3))
    ensures t.Seconds? ==> t.seconds < 60 && t.seconds == Breakdown(endTime - now).3
  {
    var remaining := endTime - now;
    if remaining <= 0 then Over
    else
      var (days, hours, minutes, seconds) := Breakdown(remaining);
      if days > 0 then DaysHours(days, hours)
      else if hours > 0 then HoursMinutes(hours, minutes)
      else if minutes > 0 then MinutesSeconds(minutes, seconds)
      else Seconds(seconds)
  }

  /** The text of a countdown. */
  function RenderTimeLeft(t: TimeLeft): string {
    match t
    case Over => "Ended"
    case DaysHours(d, h) => NatToString(d) + "d " + NatToString(h) + "h"
    case HoursMinutes(h, m) => NatToString(h) + "h " + NatToString(m) + "m"
    case MinutesSeconds(m, s) => NatToString(m) + "m " + NatToString(s) + "s"
    case Seconds(s) => NatToString(s) + "s"
  }

  /** `Math.floor(x / d)`: the quotient that leaves a remainder below `d`. */
  function Floor(x: int, d: nat): (q: int)
    requires d > 0
    ensures q * d <= x < q * d + d
  {
    x / d
  }

  /** The bucket `formatRelativeTime` puts an elapsed time into. */
  datatype RelativeTime =
    | JustNow                 // "Just now"
    | MinutesAgo(n: nat)      // "{n} min ago"
    | HoursAgo(n: nat)        // "{n} h ago"
    | DaysAgo(n: nat)         // "{n} d ago"
    | WeeksAgo(n: nat)        // "{n} w ago"
    | OnDate                  // the locale-formatted date

  /**
   * `formatRelativeTime(date)` at instant `now`: elapsed whole seconds (floored, so a
   * future date is "Just now"), then minutes, hours, days and weeks in turn.
   */
  function FormatRelativeTime(date: int, now: int): (r: RelativeTime)
    ensures r.JustNow? <==> now - date < MinuteMs
    ensures r.MinutesAgo? ==> 1 <= r.n < 60 && r.n * MinuteMs <= now - date < (r.n + 1) * MinuteMs
    ensures r.HoursAgo? ==> 1 <= r.n < 24 && r.n * HourMs <= now - date < (r.n + 1) * HourMs
    ensures r.DaysAgo? ==> 1 <= r.n < 7 && r.n * DayMs <= now - date < (r.n + 1) * DayMs
    ensures r.WeeksAgo? ==> 1 <= r.n < 4 && r.n * 7 * DayMs <= now - date < (r.n + 1) * 7 * DayMs
    ensures r.OnDate? <==> now - date >= 28 * DayMs
  {
    assert MinuteMs == 60_000 && HourMs == 3_600_000 && DayMs == 86_400_000;
    var seconds := Floor(now - date, 1000);
    if seconds < 60 then JustNow
    else
      var minutes := Floor(seconds, 60);
      if minutes < 60 then MinutesAgo(minutes)
      else
        var hours := Floor(minutes, 60);
        if hours < 24 then HoursAgo(hours)
        else
          var days := Floor(hours, 24);
          if days < 7 then DaysAgo(days)
          else
            var weeks := Floor(days, 7);
            if weeks < 4 then WeeksAgo(weeks)
            else OnDate
  }

  /**
   * `getUserLocale`: `None` stands for rendering without a browser window; otherwise
   * the language prefixes "et", "lv" and "lt" pick their country and anything else
   * falls back to Estonia.
   */
  function UserLocale(browserLanguage: Option<string>): (l: Locale)
    ensures l == Latvia <==> browserLanguage.Some? && StartsWith(browserLanguage.value, "lv")
    ensures l == Lithuania <==> browserLanguage.Some? && StartsWith(browserLanguage.value, "lt")
  {
    match browserLanguage
    case None => DefaultLocale
    case Some(lang) =>
      if StartsWith(lang, "et") then Estonia
      else if StartsWith(lang, "lv") then Latvia
      else if StartsWith(lang, "lt") then Lithuania
      else DefaultLocale
  }

  /** `formatAddress`: "street, postal code city, country" whatever the locale. */
  function FormatAddress(street: string, city: string, postalCode: string, country: string, locale: Locale): (r: string)
    ensures |r| == |street| + |postalCode| + |city| + |country| + 5
    ensures StartsWith(r, street + ", " + postalCode + " " + city)
    ensures r[|r| - |country| - 2..|r| - |country|] == ", "
    ensures r[|r| - |country|..] == country
  {
    street + ", " + postalCode + " " + city + ", " + country
  }
}
