/**
 * The text shown on a listing's page: the game title and description carved out of
 * the English description, the labels for condition and listing type, the price, and
 * how long ago the listing was posted.
 */
module ListingDetail {
  import opened Wrappers
  import opened Strings
  import RegionalSettings

  /** The separator between the game title and the seller's text. */
  const Separator := " - "

  /**
   * The text before the first " - " of the English description, or "Untitled Game"
   * when the description is missing or that text is empty.
   */
  function GameTitle(descriptionEn: Option<string>): (t: string)
    ensures t != ""
    ensures descriptionEn.None? ==> t == "Untitled Game"
    ensures descriptionEn.Some? && Split(descriptionEn.value, Separator)[0] == "" ==> t == "Untitled Game"
    ensures descriptionEn.Some? && Split(descriptionEn.value, Separator)[0] != "" ==>
              t == Split(descriptionEn.value, Separator)[0]
              && StartsWith(descriptionEn.value, t)
  {
    match descriptionEn
    case None => "Untitled Game"
    case Some(s) =>
      var head := Split(s, Separator)[0];
      if head == "" then "Untitled Game"
      else
        HeadIsPrefix(s, Separator);
        head
  }

  /** The first piece of a split is a prefix of the string. */
  lemma HeadIsPrefix(s: string, sep: string)
    requires |sep| > 0
    ensures StartsWith(s, Split(s, sep)[0])
  {
    match IndexOf(s, sep, 0)
    case None =>
      assert Split(s, sep)[0] == s;
    case Some(i) =>
      assert Split(s, sep)[0] == s[..i];
  }

  /** Everything after the first " - ", the later pieces joined again with " - ". */
  function Description(descriptionEn: Option<string>): (d: string)
    ensures descriptionEn.None? ==> d == ""
    ensures descriptionEn.Some? && !Contains(descriptionEn.value, Separator) ==> d == ""
  {
    match descriptionEn
    case None => ""
    case Some(s) => Join(Split(s, Separator)[1..], Separator)
  }

  /**
   * When the description holds the separator after a non-empty title, title,
   * separator and description put together give the description back.
   */
  lemma {:induction false} TitleAndDescriptionReconstruct(s: string)
    requires Contains(s, Separator)
    requires Split(s, Separator)[0] != ""
    ensures GameTitle(Some(s)) + Separator + Description(Some(s)) == s
  {
    HeadAndDescriptionReconstruct(s);
  }

  /**
   * Whatever comes before the first separator, even nothing, is followed by the
   * separator and the description.
   */
  lemma {:induction false} HeadAndDescriptionReconstruct(s: string)
    requires Contains(s, Separator)
    ensures Split(s, Separator)[0] + Separator + Description(Some(s)) == s
  {
    var parts := Split(s, Separator);
    var i := IndexOf(s, Separator, 0).value;
    assert parts == [s[..i]] + Split(s[i + |Separator|..], Separator);
    assert |parts| >= 2;
    JoinSplit(s, Separator);
    assert Join(parts, Separator) == parts[0] + Separator + Join(parts[1..], Separator);
  }

  /** The title never contains the separator. */
  lemma TitleHasNoSeparator(descriptionEn: Option<string>)
    ensures !Contains(GameTitle(descriptionEn), Separator)
  {
    var t := GameTitle(descriptionEn);
    if t == "Untitled Game" {
      forall j: nat
        ensures !OccursAt(t, Separator, j)
      {
        if j + 3 <= |t| {
          assert t[j..j + 3] == [t[j], t[j + 1], t[j + 2]];
        }
      }
    } else {
      SplitHeadFree(descriptionEn.value, Separator);
    }
  }

  function ConditionLabel(condition: string): (text: string)
    ensures condition == "new" ==> text == "New (Sealed)"
    ensures condition == "like_new" ==> text == "Like New"
    ensures condition == "very_good" ==> text == "Very Good"
    ensures condition == "good" ==> text == "Good"
    ensures condition == "acceptable" ==> text == "Acceptable"
    ensures condition !in {"new", "like_new", "very_good", "good", "acceptable"} ==> text == condition
  {
    match condition
    case "new" => "New (Sealed)"
    case "like_new" => "Like New"
    case "very_good" => "Very Good"
    case "good" => "Good"
    case "acceptable" => "Acceptable"
    case _ => condition
  }

  function ListingTypeLabel(listingType: string): (text: string)
    ensures listingType == "fixed" ==> text == "Fixed Price"
    ensures listingType == "auction" ==> text == "Auction"
    ensures listingType == "trade" ==> text == "Trade Only"
    ensures listingType !in {"fixed", "auction", "trade"} ==> text == listingType
  {
    match listingType
    case "fixed" => "Fixed Price"
    case "auction" => "Auction"
    case "trade" => "Trade Only"
    case _ => listingType
  }

  /**
   * An amount of cents written with two decimals, as `toFixed(2)` writes it: an
   * optional minus sign, the whole units, a point and two digits.
   */
  function FixedTwo(cents: int): (r: string)
    ensures |r| >= 4 && r[|r| - 3] == '.' && AllDigits(r[|r| - 2..])
    ensures cents < 0 <==> r[0] == '-'
    ensures var units := r[if cents < 0 then 1 else 0..|r| - 3];
            && AllDigits(units) && units != [] && (|units| > 1 ==> units[0] != '0')
            && DigitsValue(units) * 100 + DigitsValue(r[|r| - 2..]) == if cents < 0 then -cents else cents
  {
    var magnitude: nat := if cents < 0 then -cents else cents;
    var units := NatToString(magnitude / 100);
    var fraction := RegionalSettings.TwoDigits(magnitude % 100);
    var r := (if cents < 0 then "-" else "") + units + "." + fraction;
    NatToStringRoundTrip(magnitude / 100);
    RegionalSettings.ShortDigitsValue(fraction);
    assert r[if cents < 0 then 1 else 0..|r| - 3] == units;
    assert r[|r| - 2..] == fraction;
    r
  }

  /** A price with its currency, or "Trade Only" for a listing without one. */
  function FormatPrice(price: Option<int>, currency: string): (r: string)
    ensures price.None? <==> r == "Trade Only"
    ensures price.Some? ==> r == currency + " " + FixedTwo(price.value)
  {
    match price
    case None => "Trade Only"
    case Some(c) =>
      var r := currency + " " + FixedTwo(c);
      assert r[|currency| + 1..] == FixedTwo(c);
      r
  }

  /** How long ago a listing was posted, bucketed on whole elapsed hours. */
  datatype TimeAgo = JustNow | HoursAgo(hours: int) | DaysAgo(days: int) | WeeksAgo(weeks: int) | OnDate(date: int)

  /**
   * Elapsed time floored to hours; under one hour (including a date in the future) is
   * "Just now", then hours below a day, days below a week, weeks below four, and
   * otherwise the date itself.
   */
  function TimeAgoOf(date: int, now: int): (t: TimeAgo)
    ensures t.JustNow? <==> now - date < RegionalSettings.HourMs
    ensures t.HoursAgo? ==>
              (1 <= t.hours < 24
               && t.hours * RegionalSettings.HourMs <= now - date < (t.hours + 1) * RegionalSettings.HourMs)
    ensures t.DaysAgo? ==>
              (1 <= t.days < 7
               && t.days * RegionalSettings.DayMs <= now - date < (t.days + 1) * RegionalSettings.DayMs)
    ensures t.WeeksAgo? ==>
              (1 <= t.weeks < 4
               && t.weeks * 7 * RegionalSettings.DayMs <= now - date < (t.weeks + 1) * 7 * RegionalSettings.DayMs)
    ensures t.OnDate? <==> now - date >= 28 * RegionalSettings.DayMs
    ensures t.OnDate? ==> t.date == date
  {
    var hours := (now - date) / RegionalSettings.HourMs;
    if hours < 1 then JustNow
    else if hours < 24 then HoursAgo(hours)
    else
      var days := hours / 24;
      if days < 7 then DaysAgo(days)
      else
        var weeks := days / 7;
        if weeks < 4 then WeeksAgo(weeks) else OnDate(date)
  }
}
