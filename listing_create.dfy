/**
 * The checks and record construction of the create-listing handler: the required
 * fields, the auction fields and their HH:MM end time, the end instant, and the
 * `listings` and `auctions` rows it inserts.
 */
module ListingCreate {
  import opened Wrappers
  import opened Entities
  import RegionalSettings

  /**
   * A number field as the listing form posts it: the text typed in (empty when absent)
   * and the number the handler reads from it (`parseFloat` to cents, `parseInt` for the
   * day count). The handler's presence tests look at the text, so "0" is present.
   */
  datatype NumberField = NumberField(raw: string, value: int)

  /**
   * The request body. An empty string stands for an absent or empty text field (falsy
   * in the handler); the fixed price is `None` when it does not parse.
   */
  datatype CreateRequest = CreateRequest(
    gameTitle: string,
    listingType: string,
    price: Option<Cents>,
    currency: string,
    condition: string,
    locationCity: string,
    description: string,
    images: Option<seq<string>>,
    startingPrice: NumberField,
    auctionDays: NumberField,
    endTime: string,
    reservePrice: NumberField,
    buyNowPrice: NumberField,
    bidIncrement: Cents)

  datatype CreateError =
    | CreateUnauthorized     // 401
    | MissingRequiredFields  // 400 "Missing required fields"
    | SellerProfileNotFound  // 404 "User profile not found"
    | GameCreateFailed       // 500 "Failed to create game"
    | MissingAuctionFields   // 400 "Missing auction fields"
    | InvalidTimeFormat      // 400 "Invalid time format. Use HH:MM (24-hour format)"
    | ListingInsertFailed    // 500 "Failed to create listing"
    | AuctionInsertFailed    // 500 "Failed to create auction"

  /** Seconds by which a late bid would extend an auction; stored, never read. */
  const ExtensionTime: int := 300

  /** Game title, listing type, condition, city and description are all non-empty. */
  predicate RequiredFieldsPresent(req: CreateRequest) {
    req.gameTitle != "" && req.listingType != "" && req.condition != ""
    && req.locationCity != "" && req.description != ""
  }

  predicate IsAuction(req: CreateRequest) {
    req.listingType == "auction"
  }

  /** A number field the handler treats as given: its posted text is not empty. */
  predicate Given(x: NumberField) {
    x.raw != ""
  }

  /**
   * The auction-field checks, in order: starting price, day count and end time must
   * be present, then the end time must match the 24-hour pattern.
   */
  function AuctionFieldsError(req: CreateRequest): (e: Option<CreateError>)
    ensures e.None? <==>
              Given(req.startingPrice) && Given(req.auctionDays) && req.endTime != ""
              && RegionalSettings.Valid24HourTime(req.endTime)
    ensures e.Some? ==> e.value == MissingAuctionFields || e.value == InvalidTimeFormat
    ensures e == Some(InvalidTimeFormat) <==>
              Given(req.startingPrice) && Given(req.auctionDays) && req.endTime != ""
              && !RegionalSettings.Valid24HourTime(req.endTime)
  {
    if !Given(req.startingPrice) || !Given(req.auctionDays) || req.endTime == "" then Some(MissingAuctionFields)
    else if !RegionalSettings.Valid24HourTime(req.endTime) then Some(InvalidTimeFormat)
    else None
  }

  /**
   * The auction's deadline: `days` calendar days after the day of `now`, at the
   * requested hour and minute with zero seconds and milliseconds (local time, no
   * daylight-saving shifts).
   */
  function AuctionEndTime(now: Millis, days: int, endTime: string): (end: Millis)
    requires RegionalSettings.Valid24HourTime(endTime)
    ensures end / RegionalSettings.DayMs == now / RegionalSettings.DayMs + days
    ensures end % RegionalSettings.DayMs
         == RegionalSettings.ClockParts(endTime).0 * RegionalSettings.HourMs
          + RegionalSettings.ClockParts(endTime).1 * RegionalSettings.MinuteMs
    ensures end % RegionalSettings.MinuteMs == 0
  {
    var (h, m) := RegionalSettings.ClockParts(endTime);
    var day := now / RegionalSettings.DayMs + days;
    var time := h * RegionalSettings.HourMs + m * RegionalSettings.MinuteMs;
    DayAndTime(day, h, m);
    day * RegionalSettings.DayMs + time
  }

  /** An instant made of a whole day and a clock time splits back into the two. */
  lemma DayAndTime(day: int, h: nat, m: nat)
    requires h < 24 && m < 60
    ensures var t := h * RegionalSettings.HourMs + m * RegionalSettings.MinuteMs;
            && (day * RegionalSettings.DayMs + t) / RegionalSettings.DayMs == day
            && (day * RegionalSettings.DayMs + t) % RegionalSettings.DayMs == t
            && (day * RegionalSettings.DayMs + t) % RegionalSettings.MinuteMs == 0
  {
    var t := h * RegionalSettings.HourMs + m * RegionalSettings.MinuteMs;
    var minutes := day * 1440 + h * 60 + m;
    assert day * RegionalSettings.DayMs + t == minutes * 60000;
    assert 0 <= t < RegionalSettings.DayMs;
  }

  /**
   * The `listings` row: a price only for fixed-price listings, EUR unless another
   * currency is given, country EE, no photos unless given, status active.
   */
  function NewListing(seller: UserId, game: GameId, req: CreateRequest): (l: Listing)
    ensures l.seller_id == seller && l.game_id == game && l.status == ListingActive
    ensures l.listing_type == req.listingType && l.condition == req.condition
    ensures l.location_city == req.locationCity && l.description_en == req.description
    ensures l.price.Some? ==> req.listingType == "fixed"
    ensures req.listingType == "fixed" ==> l.price == req.price
    ensures l.currency == if req.currency == "" then "EUR" else req.currency
    ensures l.location_country == "EE"
    ensures l.photos == if req.images.Some? then req.images.value else []
  {
    Listing(seller, game, req.listingType,
            if req.listingType == "fixed" then req.price else None,
            if req.currency == "" then "EUR" else req.currency,
            req.condition, "EE", req.locationCity,
            req.images.GetOr([]), req.description, ListingActive)
  }

  /**
   * The `auctions` row: current price, starting price and minimum bid all equal the
   * requested starting price; status active, no winner, extension time 300; reserve
   * and buy-now prices only when their text is given (a posted "0" is stored as 0).
   */
  function NewAuction(listing: ListingId, req: CreateRequest, end: Millis): (a: Auction)
    ensures a.listing_id == listing && a.end_time == end
    ensures a.current_price == a.starting_price == a.minimum_bid == req.startingPrice.value
    ensures a.status == Active && a.winner_id.None? && a.extension_time == 300
    ensures a.reserve_price.Some? <==> Given(req.reservePrice)
    ensures a.reserve_price.Some? ==> a.reserve_price.value == req.reservePrice.value
    ensures a.buy_now_price.Some? <==> Given(req.buyNowPrice)
    ensures a.buy_now_price.Some? ==> a.buy_now_price.value == req.buyNowPrice.value
    ensures a.bid_increment == req.bidIncrement
  {
    Auction(listing, req.startingPrice.value, req.startingPrice.value,
            if Given(req.reservePrice) then Some(req.reservePrice.value) else None,
            req.bidIncrement, end, ExtensionTime,
            if Given(req.buyNowPrice) then Some(req.buyNowPrice.value) else None, Active, None,
            req.startingPrice.value)
  }
}
