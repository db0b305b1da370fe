/**
 * The input schemas of the marketplace, written as predicates over typed inputs: the
 * user profile, the listing-creation request and the auction bid, and the two helpers
 * that apply a schema, one reporting failure and one returning null.
 * Numbers are reals, as in the requests; text lengths count characters.
 */
module Validation {
  import opened Wrappers
  import opened Strings
  import RegionalSettings
  import ListingCreate

  predicate IsAsciiLetter(c: char) {
    'a' <= c <= 'z' || 'A' <= c <= 'Z'
  }

  predicate IsUppercase(c: char) {
    'A' <= c <= 'Z'
  }

  /** The characters of `[a-zA-Z0-9_-]`. */
  predicate IsUsernameChar(c: char) {
    IsAsciiLetter(c) || IsDigit(c) || c == '_' || c == '-'
  }

  /** 3 to 50 characters, each a letter, digit, underscore or hyphen. */
  predicate ValidUsername(s: string) {
    3 <= |s| <= 50 && forall i :: 0 <= i < |s| ==> IsUsernameChar(s[i])
  }

  /** `^[A-Z]{2}[0-9A-Z]+$`: two capital letters, then one or more capitals or digits. */
  predicate ValidVatNumber(s: string) {
    |s| >= 3 && IsUppercase(s[0]) && IsUppercase(s[1])
    && forall i :: 2 <= i < |s| ==> IsUppercase(s[i]) || IsDigit(s[i])
  }

  /** A field that may be left out, sent as null, or given. */
  datatype Nullable<T> = Absent | Null | Given(value: T)

  datatype UserProfileInput = UserProfileInput(
    username: string,
    country: string,
    preferredLanguage: Option<string>,
    vatNumber: Nullable<string>)

  const Countries: set<string> := {"EE", "LV", "LT"}
  const Languages: set<string> := {"en", "et", "lv", "lt"}

  predicate UserProfileValid(u: UserProfileInput) {
    && ValidUsername(u.username)
    && u.country in Countries
    && (u.preferredLanguage.Some? ==> u.preferredLanguage.value in Languages)
    && (u.vatNumber.Given? ==> ValidVatNumber(u.vatNumber.value))
  }

  /** A scheme (a letter, then letters, digits, `+`, `-` or `.`) followed by a colon. */
  predicate HasUrlScheme(s: string) {
    exists k :: 1 <= k < |s| && s[k] == ':' && IsAsciiLetter(s[0])
      && forall i :: 1 <= i < k ==> IsAsciiLetter(s[i]) || IsDigit(s[i]) || s[i] in "+-."
  }

  datatype ListingCreateInput = ListingCreateInput(
    gameTitle: string,
    listingType: string,
    price: Option<real>,
    currency: Option<string>,
    condition: string,
    locationCity: string,
    description: string,
    images: Option<seq<string>>,
    startingPrice: Option<real>,
    auctionDays: Option<real>,
    endTime: Option<string>,
    reservePrice: Option<real>,
    buyNowPrice: Option<real>,
    bidIncrement: Option<real>)

  predicate PositiveIfGiven(x: Option<real>) {
    x.Some? ==> x.value > 0.0
  }

  predicate ListingCreateValid(l: ListingCreateInput) {
    && 1 <= |l.gameTitle| <= 200
    && l.listingType in {"fixed", "auction", "trade"}
    && PositiveIfGiven(l.price)
    && (l.currency.Some? ==> |l.currency.value| == 3)
    && l.condition in {"new", "like_new", "very_good", "good", "acceptable"}
    && 1 <= |l.locationCity| <= 100
    && 10 <= |l.description| <= 2000
    && (l.images.Some? ==> |l.images.value| <= 10 && forall i :: 0 <= i < |l.images.value| ==> HasUrlScheme(l.images.value[i]))
    && PositiveIfGiven(l.startingPrice)
    && (l.auctionDays.Some? ==> l.auctionDays.value.Floor as real == l.auctionDays.value
                                && 1.0 <= l.auctionDays.value <= 30.0)
    && (l.endTime.Some? ==> RegionalSettings.Valid24HourTime(l.endTime.value))
    && PositiveIfGiven(l.reservePrice)
    && PositiveIfGiven(l.buyNowPrice)
    && PositiveIfGiven(l.bidIncrement)
  }

  datatype AuctionBidInput = AuctionBidInput(amount: real, isProxy: Option<bool>)

  predicate AuctionBidValid(b: AuctionBidInput) {
    b.amount > 0.0
  }

  datatype ValidationError = ValidationError

  /** Applies a schema: the data itself when it conforms, a failure otherwise. */
  function ValidateInput<T>(valid: T -> bool, data: T): (r: Result<T, ValidationError>)
    ensures r.Success? <==> valid(data)
    ensures r.Success? ==> r.value == data
  {
    if valid(data) then Success(data) else Failure(ValidationError)
  }

  /** Applies a schema, turning a failure into null. */
  function SafeValidateInput<T>(valid: T -> bool, data: T): (r: Option<T>)
    ensures r.Some? <==> valid(data)
    ensures r.Some? ==> r.value == data
  {
    match ValidateInput(valid, data)
    case Success(v) => Some(v)
    case Failure(_) => None
  }

  /** The safe helper returns null exactly when the throwing helper fails, and agrees with it otherwise. */
  lemma SafeValidateMatchesValidate<T>(valid: T -> bool, data: T)
    ensures SafeValidateInput(valid, data).None? <==> ValidateInput(valid, data).Failure?
    ensures SafeValidateInput(valid, data).Some? ==>
              SafeValidateInput(valid, data).value == ValidateInput(valid, data).value
  {
  }

  /**
   * An end time the listing schema accepts also passes the create handler's own format
   * check, so a schema-valid auction request is never turned away as badly formatted.
   */
  lemma SchemaEndTimePassesHandler(l: ListingCreateInput, req: ListingCreate.CreateRequest)
    requires ListingCreateValid(l) && l.endTime.Some? && req.endTime == l.endTime.value
    ensures ListingCreate.AuctionFieldsError(req) != Some(ListingCreate.InvalidTimeFormat)
  {
  }
}
