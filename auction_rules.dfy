/**
 * The decision logic of the place-bid and buy-now handlers: the guard chains they run
 * before writing, the reference ("highest") price a bid must clear, and the settlement
 * record with its platform fee and VAT. Everything here is a pure function of what the
 * handlers read from the store; the writes live in `MarketStore`.
 */
module AuctionRules {
  import opened Wrappers
  import opened Entities

  /**
   * The `amount` of a bid request: absent or falsy, not a number (`parseFloat` gives
   * `NaN`), or a number of cents.
   */
  datatype AmountField = Missing | Malformed | Amount(cents: Cents)

  /** Why a bid was not recorded, in the order the handler checks. */
  datatype BidError =
    | Unauthorized          // 401
    | MissingFields         // 400 "Auction ID and amount are required"
    | InvalidAmount         // 400 "Invalid bid amount"
    | ProfileNotFound       // 400 "User profile not found"
    | AuctionNotFound       // 404
    | AuctionEnded          // 400 "Auction has ended"
    | NotAboveCurrent       // 400 "Bid must be higher than current price"
    | BelowMinimum(minimum: Cents)  // 400 "Bid must be at least ..."
    | OwnAuction            // 400 "You cannot bid on your own auction"
    | BidInsertFailed       // 500 "Failed to place bid"
    | AuctionUpdateFailed   // 500 "Failed to update auction"

  datatype BidVerdict = Accept(bid: Bid) | Reject(error: BidError)

  /** The largest bid amount recorded for auction `id`, if any. */
  function MaxBid(bids: seq<Bid>, id: AuctionId): (r: Option<Cents>)
    ensures r.None? <==> forall i :: 0 <= i < |bids| ==> bids[i].auction_id != id
    ensures r.Some? ==> forall i :: 0 <= i < |bids| && bids[i].auction_id == id ==> bids[i].amount <= r.value
    ensures r.Some? ==> exists i :: 0 <= i < |bids| && bids[i].auction_id == id && bids[i].amount == r.value
    decreases |bids|
  {
    if bids == [] then None
    else
      var last := bids[|bids| - 1];
      var earlier := MaxBid(bids[..|bids| - 1], id);
      if last.auction_id != id then earlier
      else if earlier.Some? && earlier.value >= last.amount then earlier
      else Some(last.amount)
  }

  /**
   * The price a new bid must exceed: the highest recorded bid, or the starting price
   * when there is none. The handler writes `highestBid?.amount || starting_price`, so a
   * highest bid of exactly 0 also falls back to the starting price.
   */
  function ReferencePrice(bids: seq<Bid>, id: AuctionId, startingPrice: Cents): (r: Cents)
    ensures (forall i :: 0 <= i < |bids| ==> bids[i].auction_id != id) ==> r == startingPrice
    ensures r == startingPrice || forall i :: 0 <= i < |bids| && bids[i].auction_id == id ==> bids[i].amount <= r
    ensures MaxBid(bids, id).Some? && MaxBid(bids, id).value != 0 ==> r == MaxBid(bids, id).value
    ensures MaxBid(bids, id) == Some(0) ==> r == startingPrice
    ensures r != startingPrice ==>
              exists i :: 0 <= i < |bids| && bids[i].auction_id == id && bids[i].amount == r
  {
    match MaxBid(bids, id)
    case Some(m) => if m != 0 then m else startingPrice
    case None => startingPrice
  }

  /** Bids on one auction, in insertion order, have strictly increasing amounts. */
  predicate BidsIncreasing(bids: seq<Bid>) {
    forall i, j :: 0 <= i < j < |bids| && bids[i].auction_id == bids[j].auction_id ==>
      bids[i].amount < bids[j].amount
  }

  /** The current price of every active auction is its reference price. */
  predicate PricesTrack(auctions: map<AuctionId, Auction>, bids: seq<Bid>) {
    forall id :: id in auctions && auctions[id].status == Active ==>
      auctions[id].current_price == ReferencePrice(bids, id, auctions[id].starting_price)
  }

  /** The seller of the listing behind `a`, when that listing exists. */
  function SellerOf(a: Auction, listings: map<ListingId, Listing>): Option<UserId> {
    if a.listing_id in listings then Some(listings[a.listing_id].seller_id) else None
  }

  /** The request carries an auction id and a positive, well-formed amount. */
  predicate WellFormedBid(auctionId: Option<AuctionId>, amount: AmountField) {
    auctionId.Some? && amount.Amount? && amount.cents > 0
  }

  /** The auction exists, is active and its deadline has not passed. */
  predicate Running(auctions: map<AuctionId, Auction>, id: AuctionId, now: Millis) {
    id in auctions && auctions[id].status == Active && now < auctions[id].end_time
  }

  /**
   * The guard chain of the place-bid handler, in its order: sign-in, request fields,
   * amount, profile, auction lookup, status, deadline, the two price checks against the
   * reference price, and last the seller check (which passes when the listing is gone).
   */
  function CheckBid(session: Session, auctionId: Option<AuctionId>, amount: AmountField,
                    auctions: map<AuctionId, Auction>, listings: map<ListingId, Listing>,
                    bids: seq<Bid>, now: Millis): (v: BidVerdict)
    ensures v.Accept? ==>
      && session.Profile? && auctionId.Some? && amount.Amount? && amount.cents > 0
      && auctionId.value in auctions
      && auctions[auctionId.value].status == Active
      && now < auctions[auctionId.value].end_time
      && v.bid == Bid(auctionId.value, session.id, amount.cents, false)
      && amount.cents > ReferencePrice(bids, auctionId.value, auctions[auctionId.value].starting_price)
      && amount.cents >= ReferencePrice(bids, auctionId.value, auctions[auctionId.value].starting_price)
                         + auctions[auctionId.value].bid_increment
      && SellerOf(auctions[auctionId.value], listings) != Some(session.id)
    ensures v.Reject? && v.error.BelowMinimum? ==>
      auctionId.Some? && auctionId.value in auctions &&
      v.error.minimum == ReferencePrice(bids, auctionId.value, auctions[auctionId.value].starting_price)
                         + auctions[auctionId.value].bid_increment
    ensures v == Reject(Unauthorized) <==> session.Anonymous?
    ensures v == Reject(MissingFields) <==> !session.Anonymous? && (auctionId.None? || amount.Missing?)
    ensures v == Reject(InvalidAmount) <==>
      !session.Anonymous? && auctionId.Some? && !amount.Missing? && (amount.Malformed? || amount.cents <= 0)
    ensures v == Reject(ProfileNotFound) <==> session.NoProfile? && WellFormedBid(auctionId, amount)
    ensures v == Reject(AuctionNotFound) <==>
      session.Profile? && WellFormedBid(auctionId, amount) && auctionId.value !in auctions
    ensures v == Reject(AuctionEnded) <==>
      && session.Profile? && WellFormedBid(auctionId, amount) && auctionId.value in auctions
      && (auctions[auctionId.value].status != Active || auctions[auctionId.value].end_time <= now)
    ensures v == Reject(NotAboveCurrent) <==>
      && session.Profile? && WellFormedBid(auctionId, amount) && Running(auctions, auctionId.value, now)
      && amount.cents <= ReferencePrice(bids, auctionId.value, auctions[auctionId.value].starting_price)
    ensures v.Reject? && v.error.BelowMinimum? <==>
      && session.Profile? && WellFormedBid(auctionId, amount) && Running(auctions, auctionId.value, now)
      && var highest := ReferencePrice(bids, auctionId.value, auctions[auctionId.value].starting_price);
      && highest < amount.cents < highest + auctions[auctionId.value].bid_increment
    ensures v == Reject(OwnAuction) <==>
      && session.Profile? && WellFormedBid(auctionId, amount) && Running(auctions, auctionId.value, now)
      && var highest := ReferencePrice(bids, auctionId.value, auctions[auctionId.value].starting_price);
      && amount.cents > highest && amount.cents >= highest + auctions[auctionId.value].bid_increment
      && SellerOf(auctions[auctionId.value], listings) == Some(session.id)
  {
    if session.Anonymous? then Reject(Unauthorized)
    else if auctionId.None? || amount.Missing? then Reject(MissingFields)
    else if amount.Malformed? || amount.cents <= 0 then Reject(InvalidAmount)
    else if session.NoProfile? then Reject(ProfileNotFound)
    else if auctionId.value !in auctions then Reject(AuctionNotFound)
    else
      var id := auctionId.value;
      var a := auctions[id];
      if a.status != Active then Reject(AuctionEnded)
      else if a.end_time <= now then Reject(AuctionEnded)
      else
        var highest := ReferencePrice(bids, id, a.starting_price);
        if amount.cents <= highest then Reject(NotAboveCurrent)
        else if amount.cents < highest + a.bid_increment then Reject(BelowMinimum(highest + a.bid_increment))
        else if SellerOf(a, listings) == Some(session.id) then Reject(OwnAuction)
        else Accept(Bid(id, session.id, amount.cents, false))
  }

  /** A malformed request is turned away the same way whatever the store holds. */
  lemma BadRequestIgnoresStore(session: Session, auctionId: Option<AuctionId>, amount: AmountField,
                               auctions1: map<AuctionId, Auction>, listings1: map<ListingId, Listing>, bids1: seq<Bid>,
                               auctions2: map<AuctionId, Auction>, listings2: map<ListingId, Listing>, bids2: seq<Bid>,
                               now1: Millis, now2: Millis)
    requires auctionId.None? || !amount.Amount? || amount.cents <= 0
    ensures CheckBid(session, auctionId, amount, auctions1, listings1, bids1, now1).Reject?
    ensures CheckBid(session, auctionId, amount, auctions1, listings1, bids1, now1)
         == CheckBid(session, auctionId, amount, auctions2, listings2, bids2, now2)
  {
  }

  /** A bid on an auction that is not active, or whose deadline has passed, is never accepted. */
  lemma EndedAuctionRejectsBids(session: Session, id: AuctionId, amount: AmountField,
                                auctions: map<AuctionId, Auction>, listings: map<ListingId, Listing>,
                                bids: seq<Bid>, now: Millis)
    requires id in auctions && (auctions[id].status != Active || auctions[id].end_time <= now)
    requires session.Profile? && amount.Amount? && amount.cents > 0
    ensures CheckBid(session, Some(id), amount, auctions, listings, bids, now) == Reject(AuctionEnded)
  {
  }

  /**
   * The converse of `CheckBid`'s contract: a signed-in non-seller bidding on a running
   * auction an amount above the reference price by at least the increment is accepted.
   */
  lemma EligibleBidAccepted(bidder: UserId, id: AuctionId, cents: Cents,
                            auctions: map<AuctionId, Auction>, listings: map<ListingId, Listing>,
                            bids: seq<Bid>, now: Millis)
    requires cents > 0 && id in auctions
    requires auctions[id].status == Active && now < auctions[id].end_time
    requires cents > ReferencePrice(bids, id, auctions[id].starting_price)
    requires cents >= ReferencePrice(bids, id, auctions[id].starting_price) + auctions[id].bid_increment
    requires SellerOf(auctions[id], listings) != Some(bidder)
    ensures CheckBid(Profile(bidder), Some(id), Amount(cents), auctions, listings, bids, now)
         == Accept(Bid(id, bidder, cents, false))
  {
  }

  /** Appending an accepted bid keeps every auction's bids strictly increasing. */
  lemma {:induction false} AcceptedBidKeepsIncreasing(session: Session, auctionId: Option<AuctionId>, amount: AmountField,
                                                      auctions: map<AuctionId, Auction>, listings: map<ListingId, Listing>,
                                                      bids: seq<Bid>, now: Millis)
    requires BidsIncreasing(bids)
    requires CheckBid(session, auctionId, amount, auctions, listings, bids, now).Accept?
    ensures BidsIncreasing(bids + [CheckBid(session, auctionId, amount, auctions, listings, bids, now).bid])
  {
    var b := CheckBid(session, auctionId, amount, auctions, listings, bids, now).bid;
    var nb := bids + [b];
    var id := b.auction_id;
    var m := MaxBid(bids, id);
    forall i | 0 <= i < |bids| && bids[i].auction_id == id
      ensures bids[i].amount < b.amount
    {
      assert m.Some?;
      assert bids[i].amount <= m.value;
    }
    forall i, j | 0 <= i < j < |nb| && nb[i].auction_id == nb[j].auction_id
      ensures nb[i].amount < nb[j].amount
    {
      if j < |bids| {
        assert nb[i] == bids[i] && nb[j] == bids[j];
      } else {
        assert nb[i] == bids[i] && nb[j] == b;
      }
    }
  }

  /** A bid larger than every earlier bid on its auction becomes that auction's maximum. */
  lemma MaxBidAfterTopBid(bids: seq<Bid>, b: Bid)
    requires forall i :: 0 <= i < |bids| && bids[i].auction_id == b.auction_id ==> bids[i].amount < b.amount
    ensures MaxBid(bids + [b], b.auction_id) == Some(b.amount)
  {
    assert (bids + [b])[..|bids|] == bids;
  }

  /** Appending a bid on one auction leaves the maximum of every other auction alone. */
  lemma MaxBidOther(bids: seq<Bid>, b: Bid, id: AuctionId)
    requires id != b.auction_id
    ensures MaxBid(bids + [b], id) == MaxBid(bids, id)
  {
    assert (bids + [b])[..|bids|] == bids;
  }

  /**
   * Accepting a bid and setting its auction's current price to the amount keeps every
   * active auction's current price equal to its reference price.
   */
  lemma {:induction false} AcceptedBidKeepsPricesTracking(session: Session, auctionId: Option<AuctionId>, amount: AmountField,
                                                          auctions: map<AuctionId, Auction>, listings: map<ListingId, Listing>,
                                                          bids: seq<Bid>, now: Millis)
    requires PricesTrack(auctions, bids)
    requires CheckBid(session, auctionId, amount, auctions, listings, bids, now).Accept?
    ensures var b := CheckBid(session, auctionId, amount, auctions, listings, bids, now).bid;
            PricesTrack(auctions[b.auction_id := auctions[b.auction_id].(current_price := b.amount)], bids + [b])
  {
    var b := CheckBid(session, auctionId, amount, auctions, listings, bids, now).bid;
    var id := b.auction_id;
    var na := auctions[id := auctions[id].(current_price := b.amount)];
    var nb := bids + [b];
    forall i | 0 <= i < |bids| && bids[i].auction_id == id
      ensures bids[i].amount < b.amount
    {
      var m := MaxBid(bids, id);
      assert m.Some? && bids[i].amount <= m.value;
    }
    MaxBidAfterTopBid(bids, b);
    forall k | k in na && na[k].status == Active
      ensures na[k].current_price == ReferencePrice(nb, k, na[k].starting_price)
    {
      if k != id {
        MaxBidOther(bids, b, k);
      }
    }
  }

  /** The current price never goes down when a bid is accepted on a price-tracking store. */
  lemma AcceptedBidRaisesPrice(session: Session, auctionId: Option<AuctionId>, amount: AmountField,
                               auctions: map<AuctionId, Auction>, listings: map<ListingId, Listing>,
                               bids: seq<Bid>, now: Millis)
    requires PricesTrack(auctions, bids)
    requires CheckBid(session, auctionId, amount, auctions, listings, bids, now).Accept?
    ensures var b := CheckBid(session, auctionId, amount, auctions, listings, bids, now).bid;
            auctions[b.auction_id].current_price < b.amount
  {
  }

  /**
   * A new auction whose current price is its starting price, under an id no stored
   * auction and no bid uses, keeps every active price tracking its bids.
   */
  lemma NewAuctionKeepsPricesTracking(auctions: map<AuctionId, Auction>, bids: seq<Bid>,
                                      id: AuctionId, a: Auction)
    requires PricesTrack(auctions, bids)
    requires id !in auctions
    requires forall i :: 0 <= i < |bids| ==> bids[i].auction_id != id
    requires a.current_price == a.starting_price
    ensures PricesTrack(auctions[id := a], bids)
  {
  }

  /** Why a buy-now did not complete, in the order the handler checks. */
  datatype BuyNowError =
    | BuyNowUnauthorized      // 401
    | MissingAuctionId        // 400 "Auction ID is required"
    | BuyerProfileNotFound    // 400 "User profile not found"
    | BuyNowAuctionNotFound   // 404
    | BuyNowAuctionEnded      // 400 "Auction has ended"
    | BuyNowUnavailable       // 400 "Buy now price not available"
    | ListingMissing          // 500: the joined listing is null and reading its seller throws
    | OwnAuctionPurchase      // 400 "You cannot buy your own auction"
    | EndAuctionFailed        // 500 "Failed to process buy now"

  /** A buy-now that passed every guard: who buys which auction, from whom, at what price. */
  datatype Purchase = Purchase(auction_id: AuctionId, listing_id: ListingId, buyer_id: UserId,
                               seller_id: UserId, price: Cents)

  datatype BuyNowVerdict = Proceed(purchase: Purchase) | Refuse(error: BuyNowError)

  /** `!auction.buy_now_price`: no buy-now price, or a price of 0, is "not available". */
  predicate BuyNowOffered(a: Auction) {
    a.buy_now_price.Some? && a.buy_now_price.value != 0
  }

  /**
   * The guard chain of the buy-now handler, in its order: sign-in, auction id, profile,
   * auction lookup, status, buy-now price, the joined listing's seller, the deadline.
   */
  function CheckBuyNow(session: Session, auctionId: Option<AuctionId>,
                       auctions: map<AuctionId, Auction>, listings: map<ListingId, Listing>,
                       now: Millis): (v: BuyNowVerdict)
    ensures v.Proceed? ==>
      && session.Profile? && auctionId.Some? && auctionId.value in auctions
      && var a := auctions[auctionId.value];
      && a.status == Active && BuyNowOffered(a) && now < a.end_time
      && a.listing_id in listings && listings[a.listing_id].seller_id != session.id
      && v.purchase == Purchase(auctionId.value, a.listing_id, session.id,
                                listings[a.listing_id].seller_id, a.buy_now_price.value)
    ensures v == Refuse(BuyNowUnavailable) <==>
      && session.Profile? && auctionId.Some? && auctionId.value in auctions
      && auctions[auctionId.value].status == Active && !BuyNowOffered(auctions[auctionId.value])
    ensures v == Refuse(OwnAuctionPurchase) <==>
      && session.Profile? && auctionId.Some? && auctionId.value in auctions
      && var a := auctions[auctionId.value];
      && a.status == Active && BuyNowOffered(a)
      && a.listing_id in listings && listings[a.listing_id].seller_id == session.id
    ensures v == Refuse(BuyNowAuctionEnded) <==>
      && session.Profile? && auctionId.Some? && auctionId.value in auctions
      && var a := auctions[auctionId.value];
      && (a.status != Active
          || (BuyNowOffered(a) && a.listing_id in listings
              && listings[a.listing_id].seller_id != session.id && a.end_time <= now))
    ensures v == Refuse(BuyNowUnauthorized) <==> session.Anonymous?
    ensures v == Refuse(MissingAuctionId) <==> !session.Anonymous? && auctionId.None?
    ensures v == Refuse(BuyerProfileNotFound) <==> session.NoProfile? && auctionId.Some?
    ensures v == Refuse(BuyNowAuctionNotFound) <==>
      session.Profile? && auctionId.Some? && auctionId.value !in auctions
    ensures v == Refuse(ListingMissing) <==>
      && session.Profile? && auctionId.Some? && auctionId.value in auctions
      && auctions[auctionId.value].status == Active && BuyNowOffered(auctions[auctionId.value])
      && auctions[auctionId.value].listing_id !in listings
  {
    if session.Anonymous? then Refuse(BuyNowUnauthorized)
    else if auctionId.None? then Refuse(MissingAuctionId)
    else if session.NoProfile? then Refuse(BuyerProfileNotFound)
    else if auctionId.value !in auctions then Refuse(BuyNowAuctionNotFound)
    else
      var a := auctions[auctionId.value];
      if a.status != Active then Refuse(BuyNowAuctionEnded)
      else if !BuyNowOffered(a) then Refuse(BuyNowUnavailable)
      else if a.listing_id !in listings then Refuse(ListingMissing)
      else if listings[a.listing_id].seller_id == session.id then Refuse(OwnAuctionPurchase)
      else if a.end_time <= now then Refuse(BuyNowAuctionEnded)
      else Proceed(Purchase(auctionId.value, a.listing_id, session.id,
                            listings[a.listing_id].seller_id, a.buy_now_price.value))
  }

  /**
   * The converse of `CheckBuyNow`'s contract: a signed-in buyer who is not the seller,
   * on a running auction offering a buy-now price, proceeds at that price.
   */
  lemma EligibleBuyNowProceeds(buyer: UserId, id: AuctionId,
                               auctions: map<AuctionId, Auction>, listings: map<ListingId, Listing>,
                               now: Millis)
    requires id in auctions && auctions[id].status == Active && BuyNowOffered(auctions[id])
    requires now < auctions[id].end_time
    requires auctions[id].listing_id in listings && listings[auctions[id].listing_id].seller_id != buyer
    ensures CheckBuyNow(Profile(buyer), Some(id), auctions, listings, now)
         == Proceed(Purchase(id, auctions[id].listing_id, buyer, listings[auctions[id].listing_id].seller_id,
                             auctions[id].buy_now_price.value))
  {
  }

  /** Once an auction has left `active`, neither a bid nor a buy-now on it can go through. */
  lemma InactiveAuctionIsFinal(session: Session, id: AuctionId, amount: AmountField,
                               auctions: map<AuctionId, Auction>, listings: map<ListingId, Listing>,
                               bids: seq<Bid>, now: Millis)
    requires id in auctions && auctions[id].status != Active
    ensures CheckBid(session, Some(id), amount, auctions, listings, bids, now).Reject?
    ensures CheckBuyNow(session, Some(id), auctions, listings, now).Refuse?
  {
  }

  /** The platform fee: 5% of the price, rounded down to a whole cent. */
  function PlatformFee(price: Cents): (fee: Cents)
    ensures 100 * fee <= 5 * price < 100 * fee + 100
  {
    price * 5 / 100
  }

  /** The VAT: 20% of the price, rounded down to a whole cent. */
  function Vat(price: Cents): (vat: Cents)
    ensures 100 * vat <= 20 * price < 100 * vat + 100
  {
    price * 20 / 100
  }

  /** The transaction a completed buy-now records. */
  function SaleTransaction(p: Purchase, now: Millis): (t: Transaction)
    ensures t.listing_id == p.listing_id && t.buyer_id == p.buyer_id && t.seller_id == p.seller_id
    ensures t.amount == p.price && t.escrow_status == EscrowPending && t.completed_at == now
    ensures 100 * t.platform_fee <= 5 * t.amount < 100 * t.platform_fee + 100
    ensures 100 * t.vat_amount <= 20 * t.amount < 100 * t.vat_amount + 100
  {
    Transaction(p.listing_id, p.buyer_id, p.seller_id, p.price, PlatformFee(p.price), Vat(p.price),
                EscrowPending, now)
  }
}
