# Second Turn Games marketplace: auction and listing core in Dafny

This project models the server-side auction logic of the Second Turn Games board-game
marketplace, together with the small client and library helpers around it, and proves
properties of that model.

**Auctions.** The central part is the bid and buy-now state machine.
- `AuctionRules` holds the pure decision logic. `CheckBid` and `CheckBuyNow` run the guard
  chains of `POST /api/auctions/bid` and `POST /api/auctions/buy-now` in the handlers' own
  order. The module also holds the reference price a bid must beat and the sale
  transaction with its 5% platform fee and 20% VAT.
- `MarketStore.Store` is the entity store: listings, auctions, bids, transactions and
  games, kept as maps and sequences. Its methods `PlaceBid`, `BuyNow` and
  `CreateListing` perform the handlers' writes in order.
- A database write that fails is chosen by a `faults` parameter.
- Money is whole cents and instants are milliseconds. The current instant `now` is a
  parameter.
- Who is calling is a `Session`: signed out, signed in without a profile, or a profile id.

The proofs show the following, for stores changed only through the three modelled
handlers (the separate `auctions/[id]/bids` route, which compares a bid with
`current_price` alone and checks neither deadline nor seller, is not part of this model):
- The bids recorded for each auction strictly increase.
- Under sequential use with no failed price update, every active auction's
  `current_price` equals its highest bid, or its starting price when it has none or
  when the highest bid is 0.
- After a successful buy-now, every later bid and buy-now on that auction is turned away.

**Listing creation.** `ListingCreate` holds the required-field and auction-field checks of
`POST /api/listings/create`, the auction's end instant, and the listing and auction
records it inserts.

**Helpers.**
- `SearchUtils`: the marketplace filter chain and its three orderings, as a stable
  insertion sort on a key.
- `SearchFilters`: the filter panel's state and handlers.
- `ImageUpload`: the bounded image list of the listing form.
- `ListingDetail`: the text shown on a listing's page.
- `RegionalSettings`: clock times, phone numbers, countdowns and relative times.
- `Validation`: the input schemas as predicates.
- `ProfileUpdate`: the profile-update handler.
- `Strings` and `Wrappers` supply the string and option helpers.

**Where the code and its description differ, the model follows the code.**
- The bid handler compares a bid with the highest row in the `bids` table, not with
  `current_price`.
- A highest bid of 0 falls back to the starting price, because the handler writes
  `highestBid?.amount || starting_price`.
- The seller check comes after both price checks. It passes when the listing row is
  missing.
- Buy-now checks status, then the buy-now price, then the seller, and only then the
  deadline.
- Buy-now stays open while bids exceed the buy-now price. Buying then lowers
  `current_price` to the buy-now price; `PricesTrack` only constrains active auctions,
  so it is unaffected.
- The modelled handlers have no anti-sniping extension, expiry sweep or reserve-price
  check, and the place-bid handler does not touch `bid_count` (only the separate
  `auctions/[id]/bids` route increments it). `extension_time` is stored as 300 and
  never read.
- The create handler tests its number fields for presence on the posted text, so a
  starting, reserve or buy-now price of "0" counts as given and is stored as 0.
- Writes are not atomic. A refused price update leaves the new bid recorded. A refused
  listing or transaction write after a buy-now is only logged, and the request still
  succeeds. A refused auction insert leaves the new listing in place.
- A game row created before the auction fields are checked stays when those checks fail.

## Model

| member | source | states |
|---|---|---|
| AuctionRules.MaxBid | src/app/api/auctions/bid/route.ts:67-74 | the highest bid amount for the auction: none exactly when it has no bids, otherwise an amount some bid has and no bid exceeds |
| AuctionRules.ReferencePrice | src/app/api/auctions/bid/route.ts:76 | the highest bid when there is one and it is not 0; the starting price when the auction has no bids or its highest bid is 0; any other value is a recorded bid amount |
| AuctionRules.SellerOf | src/app/api/auctions/bid/route.ts:95-101 | the seller of the auction's listing, none when the listing row is missing (no contract; used by `CheckBid` and `EligibleBidAccepted`) |
| AuctionRules.CheckBid | src/app/api/auctions/bid/route.ts:13-107 | an accepted bid has a profile, an id, a positive amount, an existing active unexpired auction, an amount above the reference price and at least the reference price plus the increment, and a bidder who is not the seller; the bid is `{auction, caller, amount, not proxy}`; each refusal is given exactly when its check is the first to fail, in the handler's order: 401 when signed out, missing fields, invalid amount, no profile, 404 for an unknown auction, ended (inactive or past the deadline), not above the reference price, below reference price plus increment (reported as that minimum), and own auction only after both price checks pass |
| AuctionRules.BadRequestIgnoresStore | src/app/api/auctions/bid/route.ts:20-33 | a missing id, or a missing, malformed or non-positive amount, is rejected with the same error whatever the store holds |
| AuctionRules.EndedAuctionRejectsBids | src/app/api/auctions/bid/route.ts:55-65 | a well-formed bid on an auction that is not active or whose end time has passed is rejected as "Auction has ended" |
| AuctionRules.EligibleBidAccepted | src/app/api/auctions/bid/route.ts:51-107 | conversely, a bid passing every check is accepted, so the acceptance conditions are exact |
| AuctionRules.AcceptedBidKeepsIncreasing | src/app/api/auctions/bid/route.ts:76-117 | appending an accepted bid keeps the bids of every auction strictly increasing |
| AuctionRules.MaxBidAfterTopBid | src/app/api/auctions/bid/route.ts:67-76 | after appending a bid above all earlier bids on its auction, that bid is the highest |
| AuctionRules.MaxBidOther | src/app/api/auctions/bid/route.ts:67-74 | appending a bid leaves the highest bid of every other auction unchanged |
| AuctionRules.AcceptedBidKeepsPricesTracking | src/app/api/auctions/bid/route.ts:76-132 | if every active auction's current price equals its reference price, it still does after an accepted bid is appended and the price is set to its amount |
| AuctionRules.AcceptedBidRaisesPrice | src/app/api/auctions/bid/route.ts:79-84 | on a price-tracking store an accepted bid is strictly above the auction's current price |
| AuctionRules.NewAuctionKeepsPricesTracking | src/app/api/listings/create/route.ts:128-139 | adding a new auction whose current price is its starting price, under an unused id, keeps prices tracking the bids |
| AuctionRules.BuyNowOffered | src/app/api/auctions/buy-now/route.ts:65-71 | a buy-now price is present and not 0 (no contract; used by `CheckBuyNow`) |
| AuctionRules.CheckBuyNow | src/app/api/auctions/buy-now/route.ts:8-89 | a purchase that proceeds has a profile, an existing active auction with a non-zero buy-now price, a joined listing whose seller is not the caller, and an unexpired end time; it buys at the buy-now price from that seller; "not available" exactly for an active auction without a buy-now price; "own auction" exactly for the seller of an active offering auction, even past its deadline; "ended" exactly for an inactive auction or, after those checks, a passed deadline; 401, a missing id, no profile, 404 for an unknown auction and the missing joined listing each exactly when their check is the first to fail |
| AuctionRules.EligibleBuyNowProceeds | src/app/api/auctions/buy-now/route.ts:57-89 | conversely, a signed-in non-seller on a running auction with a buy-now price proceeds at that price |
| AuctionRules.InactiveAuctionIsFinal | src/app/api/auctions/buy-now/route.ts:57-63 | on an auction that is no longer active, every bid is rejected and every buy-now refused |
| AuctionRules.PlatformFee | src/app/api/auctions/buy-now/route.ts:128 | the fee is 5% of the price, rounded down to a cent |
| AuctionRules.Vat | src/app/api/auctions/buy-now/route.ts:129 | the VAT is 20% of the price, rounded down to a cent |
| AuctionRules.SaleTransaction | src/app/api/auctions/buy-now/route.ts:121-131 | the transaction has the listing, buyer, seller and price of the purchase, fee 5% and VAT 20% of it, pending escrow, and completion at `now` |
| ListingCreate.AuctionFieldsError | src/app/api/listings/create/route.ts:78-87 | no error exactly when the starting price and day count have non-empty posted text (so "0" counts), the end time is non-empty and matches the 24-hour pattern; an invalid format is reported exactly when the fields are present but the pattern fails |
| ListingCreate.AuctionEndTime | src/app/api/listings/create/route.ts:89-96 | the end falls `days` days after today, at the requested hour and minute, with zero seconds and milliseconds |
| ListingCreate.NewListing | src/app/api/listings/create/route.ts:100-113 | the listing belongs to the caller and the game, keeps the sent listing type, condition, city and description, has a price only when fixed-price, currency EUR unless given, country EE, photos as given or none, and status active |
| ListingCreate.NewAuction | src/app/api/listings/create/route.ts:128-139 | the auction starts active with no winner, current price, starting price and minimum bid all the starting price, extension time 300, and reserve and buy-now prices exactly when their posted text is non-empty, at their parsed values |
| MarketStore.Store.PlaceBid | src/app/api/auctions/bid/route.ts:9-144 | a rejected bid changes nothing; an accepted bid is appended and the auction's current price becomes its amount, unless a write fails; the store stays valid with increasing bids, and prices keep tracking bids when the update succeeds |
| MarketStore.Store.AppendBid | src/app/api/auctions/bid/route.ts:109-126 | the bid is appended, no other table changes, and bids on each auction still increase |
| MarketStore.Store.SetCurrentPrice | src/app/api/auctions/bid/route.ts:128-139 | only the auction's current price changes, to the bid amount |
| MarketStore.Store.BuyNow | src/app/api/auctions/buy-now/route.ts:6-145 | a refusal or a failed auction update changes nothing; otherwise the auction is ended with the buyer as winner at the buy-now price, the listing is marked sold and the transaction appended unless those writes fail, which still report success |
| MarketStore.Store.GameFor | src/app/api/listings/create/route.ts:48-74 | an existing game's id is returned; otherwise a new game row is added under a fresh id, unless the insert fails |
| MarketStore.Store.InsertListing | src/app/api/listings/create/route.ts:115-124 | the listing is stored under a fresh id and nothing else changes |
| MarketStore.Store.InsertAuction | src/app/api/listings/create/route.ts:141-148 | the auction is stored under a fresh id that no bid refers to |
| MarketStore.Store.CreateListing | src/app/api/listings/create/route.ts:5-155 | sign-in, required fields and profile are checked before any write; a listing is created exactly when those pass, the game is found or inserted, the auction fields are valid and no insert fails; each refusal after the profile check is the first failing step, in the handler's order: a new title whose insert fails gives "Failed to create game", then an auction's first field error, then a failed listing insert, then a failed auction insert; the new listing and, for an auction, its auction are stored under fresh ids; a failed game insert, bad auction fields or a failed listing insert leave listings and auctions as they were; a failed auction insert leaves exactly the new listing added |
| MarketStore.BuyNowEndsAuction | src/app/api/auctions/buy-now/route.ts:92-98 | after a successful buy-now, including one whose listing or transaction write failed and was only logged, a later bid is rejected and a later buy-now refused |
| RegionalSettings.Valid24HourTime | src/lib/regional-settings.ts:200-203 | the 24-hour pattern: one or two hour digits up to 23, a colon, two minute digits up to 59 (no contract; its lemmas follow) |
| RegionalSettings.ClockTimesAreValid | src/lib/regional-settings.ts:200-203 | every hour 0-23 and minute 0-59, hour padded or not, passes the 24-hour check |
| RegionalSettings.ClockParts | src/app/api/listings/create/route.ts:91 | a valid time splits into an hour below 24 and a minute below 60 |
| RegionalSettings.ClockPartsOfTwoDigits | src/app/api/listings/create/route.ts:91 | splitting a padded "HH:MM" gives back the hour and minute |
| RegionalSettings.ClockPartsOfOneDigitHour | src/app/api/listings/create/route.ts:91 | splitting "H:MM" with a one-digit hour, such as "9:30", gives back the hour and minute |
| RegionalSettings.ConvertTo24Hour | src/lib/regional-settings.ts:206-217 | the conversion on any text, "NaN" and "undefined" included (no contract; `ConvertTo24HourWellFormed` states its meaning) |
| RegionalSettings.ConvertTo24HourWellFormed | src/lib/regional-settings.ts:206-217 | on "h:mm AM/PM", 12 AM becomes 00, 12 PM stays 12, other PM hours gain 12, the hour is padded to two digits and the minutes are kept |
| RegionalSettings.DigitsOnly | src/lib/regional-settings.ts:127 | only digits remain, and an all-digit input is unchanged |
| RegionalSettings.DigitsOnlyCounts | src/lib/regional-settings.ts:127 | each digit is kept as often as it occurs and every other character is dropped |
| RegionalSettings.DigitsOnlyAppend | src/lib/regional-settings.ts:127 | cleaning a concatenation cleans each part in order |
| RegionalSettings.DigitsOnlyChar | src/lib/regional-settings.ts:127 | a single character is kept exactly when it is a digit |
| RegionalSettings.CountryCode | src/lib/regional-settings.ts:130-136 | Estonia's code is exactly "+372", Latvia's "+371" and Lithuania's "+370" |
| RegionalSettings.FormatPhoneNumber | src/lib/regional-settings.ts:125-147 | the result is "+" then digits; a Baltic code keeps the digits, a leading 0 is replaced by the locale's code, anything else gets the code prefixed |
| RegionalSettings.Breakdown | src/lib/regional-settings.ts:108-111 | hours below 24 and minutes and seconds below 60, together making up the remaining time to the second |
| RegionalSettings.AuctionTimeLeft | src/lib/regional-settings.ts:99-122 | "Ended" exactly when no time remains; days and hours exactly from one day on, hours and minutes exactly from one hour, minutes and seconds exactly from one minute, seconds below that; each shown value is the remaining time's own day, hour, minute or second part |
| RegionalSettings.RenderTimeLeft | src/lib/regional-settings.ts:113-121 | the countdown's text for each form (no contract) |
| RegionalSettings.FormatRelativeTime | src/lib/regional-settings.ts:66-96 | "Just now" exactly below a minute, then minute, hour, day and week buckets with their bounds, and the date from four weeks on |
| RegionalSettings.UserLocale | src/lib/regional-settings.ts:171-183 | Latvian or Lithuanian exactly when the browser language starts with "lv" or "lt"; Estonian otherwise |
| RegionalSettings.FormatAddress | src/lib/regional-settings.ts:150-160 | "street, postal code city, country" regardless of the locale: the street, ", ", the postal code, a space and the city, then ", " and the country |
| SearchFilters.Without | src/components/marketplace/SearchFilters.tsx:72 | the value is gone, every other value keeps its count, and a list without the value is unchanged |
| SearchFilters.WithoutAppend | src/components/marketplace/SearchFilters.tsx:72 | removal works piece by piece over a concatenation, so the values kept stay in their order |
| SearchFilters.WithoutSingle | src/components/marketplace/SearchFilters.tsx:72 | a single value is kept exactly when it is not the one removed |
| SearchFilters.Toggle | src/components/marketplace/SearchFilters.tsx:71-73 | the value's membership flips, every other value keeps its count, and an absent value is appended at the end |
| SearchFilters.WithoutAppended | src/components/marketplace/SearchFilters.tsx:71-73 | removing a value just appended to a list without it gives back the list |
| SearchFilters.ToggleTwice | src/components/marketplace/SearchFilters.tsx:70-98 | toggling twice restores membership, and the very list when the value was absent |
| SearchFilters.WithPriceBound | src/components/marketplace/SearchFilters.tsx:100-105 | only the named bound changes |
| SearchFilters.ActiveFiltersCount | src/components/marketplace/SearchFilters.tsx:123-127 | the sum of the three list lengths, plus one exactly when the price range is narrowed; zero exactly when no list has entries and the range is not narrowed |
| SearchFilters.Cleared | src/components/marketplace/SearchFilters.tsx:112-121 | the cleared state has the default price range and a count of zero |
| SearchFilters.SearchFiltersPanel.constructor | src/components/marketplace/SearchFilters.tsx:24-32 | the panel starts with an empty search, cleared filters and relevance order |
| SearchFilters.SearchFiltersPanel.HandleSearchChange | src/components/marketplace/SearchFilters.tsx:65-68 | the search text is replaced and reported; the filters and order are kept |
| SearchFilters.SearchFiltersPanel.HandleConditionChange | src/components/marketplace/SearchFilters.tsx:70-78 | only the condition list is toggled, and the new filters are reported |
| SearchFilters.SearchFiltersPanel.HandleLocationChange | src/components/marketplace/SearchFilters.tsx:80-88 | only the location list is toggled, and the new filters are reported |
| SearchFilters.SearchFiltersPanel.HandleListingTypeChange | src/components/marketplace/SearchFilters.tsx:90-98 | only the listing-type list is toggled, and the new filters are reported |
| SearchFilters.SearchFiltersPanel.HandlePriceRangeChange | src/components/marketplace/SearchFilters.tsx:100-105 | only the named price bound changes, and the new filters are reported |
| SearchFilters.SearchFiltersPanel.HandleSortChange | src/components/marketplace/SearchFilters.tsx:107-110 | the order is replaced and reported |
| SearchFilters.SearchFiltersPanel.ClearFilters | src/components/marketplace/SearchFilters.tsx:112-121 | the filters return to the cleared state and are reported |
| SearchUtils.Filter | src/lib/search-utils.ts:32-39 | each element passing the test is kept exactly as often as it occurs, and no other element is kept |
| SearchUtils.FilterAppend | src/lib/search-utils.ts:32-39 | filtering a concatenation filters each part in order |
| SearchUtils.FilterSingle | src/lib/search-utils.ts:32-39 | a single element is kept exactly when it passes |
| SearchUtils.PassesSearch | src/lib/search-utils.ts:30-40 | a blank query passes; otherwise the lower-cased query occurs in the lower-cased title or description (no contract; used by `FilterListings`) |
| SearchUtils.PassesCondition | src/lib/search-utils.ts:43-47 | no conditions chosen, or the listing's condition is one of them (no contract) |
| SearchUtils.PassesPrice | src/lib/search-utils.ts:50-59 | the range is not narrowed, the listing has no price, or its price in cents lies within the euro bounds times 100 (no contract) |
| SearchUtils.PassesLocation | src/lib/search-utils.ts:62-66 | no cities chosen, or the listing's city is one of them (no contract) |
| SearchUtils.PassesListingType | src/lib/search-utils.ts:69-73 | no types chosen, or the listing's type is one of them (no contract) |
| SearchUtils.FilterIf | src/lib/search-utils.ts:43-47 | an inactive step keeps everything; an active step keeps exactly the passing elements |
| SearchUtils.FilterChain | src/lib/search-utils.ts:27-73 | the chain never lengthens the list |
| SearchUtils.FilterAll | src/lib/search-utils.ts:43-47 | filtering by a test that always holds changes nothing |
| SearchUtils.FilterFuse | src/lib/search-utils.ts:27-73 | two filters in a row are one filter by both tests |
| SearchUtils.FilterIfStep | src/lib/search-utils.ts:27-73 | a chain step, active or skipped, after a filter is one filter by both tests, since a skipped step's test holds everywhere |
| SearchUtils.FilterChainIsFilter | src/lib/search-utils.ts:27-73 | the chain equals one filter of the input by all five tests, in the input order |
| SearchUtils.FilterChainKeeps | src/lib/search-utils.ts:29-73 | the chain keeps each listing that passes every active filter as often as the input holds it, and drops the rest |
| SearchUtils.ModeOf | src/lib/search-utils.ts:84-121 | "price_low", "price_high" and "date_old" choose their orderings; every other key sorts newest first |
| SearchUtils.Compare | src/lib/search-utils.ts:85-120 | the source's comparators, unpriced listings last in both price orders (no contract; `CompareMatchesKey` states its meaning) |
| SearchUtils.CompareMatchesKey | src/lib/search-utils.ts:85-120 | the comparator's sign agrees with the key order in both directions, so sorting by key is sorting by the comparator |
| SearchUtils.Insert | src/lib/search-utils.ts:81-82 | inserting into a sorted list keeps it sorted and adds exactly the new element |
| SearchUtils.SortListings | src/lib/search-utils.ts:81-122 | the result is sorted by the mode's key and is a permutation of the input |
| SearchUtils.WithKey | src/lib/search-utils.ts:81-122 | the elements with one key, each as often as in the list |
| SearchUtils.InsertWithKey | src/lib/search-utils.ts:81-122 | insertion puts the new element before every element with the same key |
| SearchUtils.SortStable | src/lib/search-utils.ts:81-122 | the sort is stable: for every key, the listings with that key keep their input order |
| SearchUtils.NullPricesLast | src/lib/search-utils.ts:85-99 | in both price orderings, nothing priced follows an unpriced listing |
| SearchUtils.PriceOrder | src/lib/search-utils.ts:85-99 | priced listings ascend under "price_low" and descend under "price_high" |
| SearchUtils.DateOrder | src/lib/search-utils.ts:101-121 | "date_old" puts the oldest first; "date_new", "relevance" and unknown keys put the newest first |
| SearchUtils.FilterListings | src/lib/search-utils.ts:21-79 | the result holds exactly the listings passing every active filter, each as often as in the input, sorted by the chosen key, and listings with equal keys keep their input order |
| SearchUtils.NoFiltersKeepEverything | src/lib/search-utils.ts:27-79 | with a blank search and cleared filters, the result is a permutation of the input |
| SearchUtils.GetSearchStats | src/lib/search-utils.ts:124-130 | the total and filtered counts are the lengths, and results exist exactly when the filtered list is non-empty |
| SearchUtils.SearchStatsBounded | src/lib/search-utils.ts:124-130 | for a search's own results, the filtered count never exceeds the total |
| ImageUpload.WithoutIndex | src/components/listings/ImageUpload.tsx:58-59 | an index in range removes exactly that element and keeps the others in order; any other index changes nothing |
| ImageUpload.ImagePicker.constructor | src/components/listings/ImageUpload.tsx:12-14 | the capacity is the given one or 6, the list starts empty and nothing is uploading |
| ImageUpload.ImagePicker.MaxFiles | src/components/listings/ImageUpload.tsx:54 | the room left plus the images held equals the capacity, and it is non-negative while the list is valid and non-empty |
| ImageUpload.ImagePicker.OnDrop | src/components/listings/ImageUpload.tsx:16-47 | a drop is accepted exactly when it fits the capacity, and then appends the new images in order and reports the new list to the form; a refused drop changes nothing and reports nothing; the capacity bound is kept |
| ImageUpload.ImagePicker.RemoveImage | src/components/listings/ImageUpload.tsx:58-62 | the list loses exactly the element at the index, the new list is reported to the form, and the capacity bound is kept |
| ImageUpload.DropThenRemove | src/components/listings/ImageUpload.tsx:16-62 | one image fits exactly when there is room, and removing it again restores the list |
| ListingDetail.GameTitle | src/components/listings/ListingDetail.tsx:49 | the text before the first " - ", which starts the description, or "Untitled Game" when the description is missing or that text is empty; never empty |
| ListingDetail.Description | src/components/listings/ListingDetail.tsx:50 | empty when the description is missing or has no " - "; otherwise everything after the first " - " (pinned by `HeadAndDescriptionReconstruct`) |
| ListingDetail.HeadAndDescriptionReconstruct | src/components/listings/ListingDetail.tsx:50 | whenever the text holds " - ", the part before the first one, the separator and the description give the text back, even when that part is empty |
| ListingDetail.TitleAndDescriptionReconstruct | src/components/listings/ListingDetail.tsx:49-50 | with a separator after a non-empty title, title + " - " + description gives the original text back |
| ListingDetail.TitleHasNoSeparator | src/components/listings/ListingDetail.tsx:49 | the title never contains " - " |
| ListingDetail.ConditionLabel | src/components/listings/ListingDetail.tsx:52-67 | the five conditions get their labels and any other value is shown unchanged |
| ListingDetail.ListingTypeLabel | src/components/listings/ListingDetail.tsx:69-80 | the three listing types get their labels and any other value is shown unchanged |
| ListingDetail.FixedTwo | src/components/listings/ListingDetail.tsx:84 | a sign exactly for negative amounts, whole units without leading zeros, a point and two digits that read back as the amount |
| ListingDetail.FormatPrice | src/components/listings/ListingDetail.tsx:82-85 | "Trade Only" exactly when there is no price; otherwise the currency, a space and the two-decimal amount |
| ListingDetail.TimeAgoOf | src/components/listings/ListingDetail.tsx:87-102 | "Just now" exactly below one hour, including future dates; then hour, day and week buckets with their bounds, and the date from four weeks on |
| Validation.ValidateInput | src/lib/validation.ts:56-58 | succeeds exactly on conforming data and then returns the data |
| Validation.SafeValidateInput | src/lib/validation.ts:61-67 | returns the data exactly on conforming data and null otherwise |
| Validation.SafeValidateMatchesValidate | src/lib/validation.ts:56-67 | the safe helper returns null exactly when the throwing helper fails, and agrees with it otherwise |
| Validation.SchemaEndTimePassesHandler | src/lib/validation.ts:29 | an end time the listing schema accepts is never refused by the create handler's format check |
| ProfileUpdate.UpdateProfile | src/app/api/profile/update/route.ts:5-46 | 401 exactly when signed out; then missing username or country; then a country outside EE, LV, LT; then, exactly, a given language outside en, et, lv, lt; a stored record keeps username and country, with the language defaulting to "en" and the VAT number to null |
| ProfileUpdate.SchemaValidProfileIsStored | src/app/api/profile/update/route.ts:17-41 | a profile conforming to the profile schema passes every check and is stored with its language, or "en", and its VAT number, or null |
| ProfileUpdate.HandlerAcceptsShortUsername | src/app/api/profile/update/route.ts:17-22 | the handler stores a one-letter username that the profile schema rejects |

The schema predicates are `Validation.UserProfileValid`, `Validation.ListingCreateValid` and
`Validation.AuctionBidValid`. They carry no contract of their own: they are the schemas
of `src/lib/validation.ts:4-39`, written out field by field.

## Left out

- Authentication and profile lookup: the identity provider and the profile query are reduced to the `Session` value, or to a `signedIn` flag for the profile update.
- Database access: queries become reads of the store's maps and sequences. A write failure is a `faults` flag.
- Other throwing paths: an unreadable request body, and other exceptions that become "Internal server error", are not modelled.
- Concurrency: two requests that read the same highest bid and both insert are not modelled; calls are sequential.
- Money is whole cents, not binary floating point. The fee and VAT are rounded down to a cent, where the source stores the float products unrounded.
- A `parseFloat` amount with trailing text, and `toFixed` rounding of fractional cents, are not modelled.
- Time: instants are milliseconds on one local clock. `Date` parsing, time zones, daylight-saving shifts, ISO rendering and the locale-formatted dates (`formatDate`, `formatTime`, `formatDateTime`, `formatCurrency`, `formatNumber`, `ensure24HourFormat`, `formatTime24Hour`) are not modelled.
- ListingCreate.AuctionEndTime: assumes a day of exactly 24 hours. The day count is already an integer, so `parseInt` of a fractional or non-numeric day count is not modelled.
- ListingCreate.NewAuction: a missing bid increment, and a posted starting, reserve or buy-now price whose text does not parse, are not modelled. The handler would store `NaN`; the model takes each parsed value as an integer number of cents.
- ListingCreate.NewListing: a fixed price that does not parse is stored as absent, where the handler stores `NaN`. A price of 0 is stored as 0, as in the handler. Shipping options are not modelled.
- Case and whitespace: `toLowerCase` is modelled on ASCII letters only, and `trim` on the common whitespace characters. Full Unicode case mapping is not modelled.
- Text length: lengths count characters, where the schemas count UTF-16 code units.
- `convertTo24Hour`: only the well-formed readings have a proved property. The general function follows the code, including "NaN" and "undefined".
- `parseInt`: leading whitespace and hexadecimal prefixes are not modelled.
- Validation.ListingCreateValid: the URL check of `z.string().url()` is approximated by "starts with a scheme and a colon". The record type of `shippingOptions` is not modelled.
- Validation.ValidateInput: zod's error details and key stripping are not modelled. Inputs are typed records, so a wrong field type cannot be expressed.
- The search parameters schema (`searchParamsSchema`) is not modelled; nothing in the modelled core uses it.
- SearchUtils.SortListings: invalid dates (`NaN` comparisons) are not modelled. Stability is proved by `SortStable`, as a separate lemma.
- SearchFilters: `Number(...)` of an empty or non-numeric price input (`0` or `NaN`) is not modelled; bounds are integers. The show-filters toggle is presentation only and is not modelled.
- ImageUpload: reading files into data URLs (`FileReader`), the drop zone's own file-count and type checks, and the error alert are not modelled. A drop receives the URLs it produced, and that path never fails.
- Rendering: React rendering, timers, toasts, real-time channels and the contact panel are not modelled.
- ProfileUpdate.UpdateProfile: the store's update is one `updateFails` flag. The stored profile is the record passed to it. A falsy non-string field is written as an empty string.
