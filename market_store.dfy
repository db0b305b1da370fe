/**
 * The entity store the auction handlers work against, as an object whose tables are
 * maps and sequences, with the three handlers that write to it: place a bid, buy now,
 * and create a listing (with its auction). Each handler first runs its guard chain
 * (`AuctionRules`, `ListingCreate`) and then performs its writes one after another;
 * a write the database refuses is chosen by the `faults` parameter.
 */
module MarketStore {
  import opened Wrappers
  import opened Entities
  import opened AuctionRules
  import opened ListingCreate

  /** Which of the place-bid handler's two writes the database refuses. */
  datatype BidFaults = BidFaults(bidInsertFails: bool, auctionUpdateFails: bool)

  /** Which of the buy-now handler's three writes the database refuses. */
  datatype BuyNowFaults = BuyNowFaults(auctionUpdateFails: bool, listingUpdateFails: bool,
                                       transactionInsertFails: bool)

  /** Which of the create-listing handler's inserts the database refuses. */
  datatype CreateFaults = CreateFaults(gameInsertFails: bool, listingInsertFails: bool,
                                       auctionInsertFails: bool)

  /** The buy-now response: the recorded transaction (null when its insert failed), or why not. */
  datatype BuyNowOutcome = Bought(transaction: Option<Transaction>) | NotBought(error: BuyNowError)

  datatype CreateOutcome = Created(listing_id: ListingId) | NotCreated(error: CreateError)

  class Store {
    var listings: map<ListingId, Listing>
    var auctions: map<AuctionId, Auction>
    var bids: seq<Bid>
    var transactions: seq<Transaction>
    /** The `games` table, keyed by English title. */
    var games: map<string, GameId>
    var nextListingId: nat
    var nextAuctionId: nat
    var nextGameId: nat

    /**
     * Keys are below the next fresh id, every bid belongs to a stored auction, and the
     * bids on each auction strictly increase.
     */
    ghost predicate Valid()
      reads this
    {
      && (forall id :: id in listings ==> id < nextListingId)
      && (forall id :: id in auctions ==> id < nextAuctionId)
      && (forall t :: t in games ==> games[t] < nextGameId)
      && (forall i :: 0 <= i < |bids| ==> bids[i].auction_id in auctions)
      && BidsIncreasing(bids)
    }

    constructor ()
      ensures Valid()
      ensures listings == map[] && auctions == map[] && bids == [] && transactions == [] && games == map[]
      ensures PricesTrack(auctions, bids)
    {
      listings, auctions, bids, transactions, games := map[], map[], [], [], map[];
      nextListingId, nextAuctionId, nextGameId := 0, 0, 0;
    }

    /**
     * `POST /api/auctions/bid`. A bid that passes `CheckBid` is inserted, then the
     * auction's current price is set to its amount; a refused insert writes nothing and
     * a refused update leaves the bid recorded with the price unchanged.
     */
    method PlaceBid(session: Session, auctionId: Option<AuctionId>, amount: AmountField,
                    now: Millis, faults: BidFaults) returns (outcome: BidVerdict)
      requires Valid()
      modifies this
      ensures Valid()
      ensures var v := CheckBid(session, auctionId, amount, old(auctions), old(listings), old(bids), now);
        && (v.Reject? ==> outcome == v && unchanged(this))
        && (v.Accept? && faults.bidInsertFails ==> outcome == Reject(BidInsertFailed) && unchanged(this))
        && (v.Accept? && !faults.bidInsertFails ==>
              && bids == old(bids) + [v.bid]
              && listings == old(listings) && transactions == old(transactions) && games == old(games)
              && nextListingId == old(nextListingId) && nextAuctionId == old(nextAuctionId)
              && nextGameId == old(nextGameId))
        && (v.Accept? && !faults.bidInsertFails && faults.auctionUpdateFails ==>
              outcome == Reject(AuctionUpdateFailed) && auctions == old(auctions))
        && (v.Accept? && !faults.bidInsertFails && !faults.auctionUpdateFails ==>
              && outcome == v
              && auctions == old(auctions)[v.bid.auction_id :=
                                           old(auctions)[v.bid.auction_id].(current_price := v.bid.amount)])
      ensures old(PricesTrack(auctions, bids)) && !faults.auctionUpdateFails ==> PricesTrack(auctions, bids)
      ensures forall id :: id in old(auctions) ==> id in auctions && auctions[id].status == old(auctions)[id].status
    {
      var v := CheckBid(session, auctionId, amount, auctions, listings, bids, now);
      if v.Reject? {
        return v;
      }
      if faults.bidInsertFails {
        return Reject(BidInsertFailed);
      }
      AcceptedBidKeepsIncreasing(session, auctionId, amount, auctions, listings, bids, now);
      if PricesTrack(auctions, bids) {
        AcceptedBidKeepsPricesTracking(session, auctionId, amount, auctions, listings, bids, now);
      }
      AppendBid(v.bid);
      if faults.auctionUpdateFails {
        return Reject(AuctionUpdateFailed);
      }
      SetCurrentPrice(v.bid.auction_id, v.bid.amount);
      outcome := v;
    }

    /** The `bids` insert: the bid is appended and no other table changes. */
    method AppendBid(b: Bid)
      requires Valid() && b.auction_id in auctions && BidsIncreasing(bids + [b])
      modifies this
      ensures Valid()
      ensures bids == old(bids) + [b]
      ensures listings == old(listings) && auctions == old(auctions)
      ensures transactions == old(transactions) && games == old(games)
      ensures nextListingId == old(nextListingId) && nextAuctionId == old(nextAuctionId)
      ensures nextGameId == old(nextGameId)
    {
      bids := bids + [b];
    }

    /** The `auctions` update of the bid handler: only the auction's current price changes. */
    method SetCurrentPrice(id: AuctionId, price: Cents)
      requires Valid() && id in auctions
      modifies this
      ensures Valid()
      ensures auctions == old(auctions)[id := old(auctions)[id].(current_price := price)]
      ensures bids == old(bids) && listings == old(listings)
      ensures transactions == old(transactions) && games == old(games)
      ensures nextListingId == old(nextListingId) && nextAuctionId == old(nextAuctionId)
      ensures nextGameId == old(nextGameId)
    {
      auctions := auctions[id := auctions[id].(current_price := price)];
    }

    /**
     * `POST /api/auctions/buy-now`. A purchase that passes `CheckBuyNow` ends the
     * auction (status ended, the buyer as winner, the buy-now price as current price);
     * only a refusal of that update fails the request. The listing is then marked sold
     * and the transaction recorded; a refusal of either is only logged, and the
     * response still reports success.
     */
    method BuyNow(session: Session, auctionId: Option<AuctionId>, now: Millis, faults: BuyNowFaults)
      returns (outcome: BuyNowOutcome)
      requires Valid()
      modifies this
      ensures Valid()
      ensures var v := CheckBuyNow(session, auctionId, old(auctions), old(listings), now);
        && (v.Refuse? ==> outcome == NotBought(v.error) && unchanged(this))
        && (v.Proceed? && faults.auctionUpdateFails ==> outcome == NotBought(EndAuctionFailed) && unchanged(this))
        && (v.Proceed? && !faults.auctionUpdateFails ==>
              var p := v.purchase;
              var t := SaleTransaction(p, now);
              && auctions == old(auctions)[p.auction_id := old(auctions)[p.auction_id].(
                                 status := Ended, winner_id := Some(p.buyer_id), current_price := p.price)]
              && listings == (if faults.listingUpdateFails then old(listings)
                              else old(listings)[p.listing_id := old(listings)[p.listing_id].(status := ListingSold)])
              && transactions == (if faults.transactionInsertFails then old(transactions)
                                  else old(transactions) + [t])
              && outcome == Bought(if faults.transactionInsertFails then None else Some(t))
              && bids == old(bids) && games == old(games)
              && nextListingId == old(nextListingId) && nextAuctionId == old(nextAuctionId)
              && nextGameId == old(nextGameId))
      ensures old(PricesTrack(auctions, bids)) ==> PricesTrack(auctions, bids)
      ensures outcome.Bought? ==> auctionId.Some? && auctions[auctionId.value].status == Ended
      ensures forall id :: id in old(auctions) && old(auctions)[id].status != Active ==>
                id in auctions && auctions[id] == old(auctions)[id]
    {
      var v := CheckBuyNow(session, auctionId, auctions, listings, now);
      if v.Refuse? {
        return NotBought(v.error);
      }
      if faults.auctionUpdateFails {
        return NotBought(EndAuctionFailed);
      }
      var p := v.purchase;
      auctions := auctions[p.auction_id := auctions[p.auction_id].(
                    status := Ended, winner_id := Some(p.buyer_id), current_price := p.price)];
      if !faults.listingUpdateFails {
        listings := listings[p.listing_id := listings[p.listing_id].(status := ListingSold)];
      }
      var t := SaleTransaction(p, now);
      if faults.transactionInsertFails {
        outcome := Bought(None);
      } else {
        transactions := transactions + [t];
        outcome := Bought(Some(t));
      }
    }

    /** The id of the game titled `title`, inserting a new `games` row when there is none. */
    method GameFor(title: string, insertFails: bool) returns (game: Option<GameId>)
      requires Valid()
      modifies this
      ensures Valid()
      ensures listings == old(listings) && auctions == old(auctions) && bids == old(bids)
      ensures transactions == old(transactions)
      ensures nextListingId == old(nextListingId) && nextAuctionId == old(nextAuctionId)
      ensures title in old(games) ==> game == Some(old(games)[title]) && games == old(games)
      ensures title !in old(games) && insertFails ==> game.None? && games == old(games)
      ensures title !in old(games) && !insertFails ==>
                game.Some? && games == old(games)[title := game.value]
      ensures game.Some? <==> title in games
      ensures game.Some? ==> games[title] == game.value
    {
      if title in games {
        return Some(games[title]);
      }
      if insertFails {
        return None;
      }
      game := Some(nextGameId);
      games := games[title := nextGameId];
      nextGameId := nextGameId + 1;
    }

    /** Inserts `l` under a fresh listing id. */
    method InsertListing(l: Listing) returns (id: ListingId)
      requires Valid()
      modifies this
      ensures Valid()
      ensures id !in old(listings) && listings == old(listings)[id := l]
      ensures auctions == old(auctions) && bids == old(bids) && transactions == old(transactions)
      ensures games == old(games) && nextAuctionId == old(nextAuctionId)
    {
      id := nextListingId;
      listings := listings[id := l];
      nextListingId := nextListingId + 1;
    }

    /** Inserts `a` under a fresh auction id; no bid refers to that id yet. */
    method InsertAuction(a: Auction) returns (id: AuctionId)
      requires Valid()
      modifies this
      ensures Valid()
      ensures id !in old(auctions) && auctions == old(auctions)[id := a]
      ensures forall i :: 0 <= i < |bids| ==> bids[i].auction_id != id
      ensures listings == old(listings) && bids == old(bids) && transactions == old(transactions)
      ensures games == old(games)
    {
      id := nextAuctionId;
      auctions := auctions[id := a];
      nextAuctionId := nextAuctionId + 1;
    }

    /**
     * `POST /api/listings/create`. After the required-field and profile checks the game
     * is looked up by title and inserted when new; only then are the auction fields
     * checked, so a rejected auction request may still have added a game. The listing
     * is inserted next and, for an auction, its auction row; a refused auction insert
     * leaves the listing in place.
     */
    method CreateListing(session: Session, req: CreateRequest, now: Millis, faults: CreateFaults)
      returns (outcome: CreateOutcome)
      requires Valid()
      modifies this
      ensures Valid()
      ensures bids == old(bids) && transactions == old(transactions)
      ensures session.Anonymous? ==> outcome == NotCreated(CreateUnauthorized) && unchanged(this)
      ensures !session.Anonymous? && !RequiredFieldsPresent(req) ==>
                outcome == NotCreated(MissingRequiredFields) && unchanged(this)
      ensures session.NoProfile? && RequiredFieldsPresent(req) ==>
                outcome == NotCreated(SellerProfileNotFound) && unchanged(this)
      ensures outcome.Created? <==>
                && session.Profile? && RequiredFieldsPresent(req)
                && (req.gameTitle in old(games) || !faults.gameInsertFails)
                && (IsAuction(req) ==> AuctionFieldsError(req).None? && !faults.auctionInsertFails)
                && !faults.listingInsertFails
      ensures session.Profile? && RequiredFieldsPresent(req) && (req.gameTitle in old(games) || !faults.gameInsertFails) ==>
                req.gameTitle in games && games == old(games)[req.gameTitle := games[req.gameTitle]]
      ensures session.Profile? && RequiredFieldsPresent(req)
              && req.gameTitle !in old(games) && faults.gameInsertFails ==>
                outcome == NotCreated(GameCreateFailed)
      ensures session.Profile? && RequiredFieldsPresent(req)
              && (req.gameTitle in old(games) || !faults.gameInsertFails)
              && IsAuction(req) && AuctionFieldsError(req).Some? ==>
                outcome == NotCreated(AuctionFieldsError(req).value)
      ensures session.Profile? && RequiredFieldsPresent(req)
              && (req.gameTitle in old(games) || !faults.gameInsertFails)
              && (IsAuction(req) ==> AuctionFieldsError(req).None?) && faults.listingInsertFails ==>
                outcome == NotCreated(ListingInsertFailed)
      ensures session.Profile? && RequiredFieldsPresent(req)
              && (req.gameTitle in old(games) || !faults.gameInsertFails)
              && IsAuction(req) && AuctionFieldsError(req).None? && !faults.listingInsertFails
              && faults.auctionInsertFails ==>
                outcome == NotCreated(AuctionInsertFailed)
      ensures outcome.Created? ==>
                && outcome.listing_id !in old(listings)
                && listings == old(listings)[outcome.listing_id := NewListing(session.id, games[req.gameTitle], req)]
                && (!IsAuction(req) ==> auctions == old(auctions))
                && (IsAuction(req) ==> exists id: AuctionId ::
                      (id !in old(auctions) &&
                       auctions == old(auctions)[id := NewAuction(outcome.listing_id, req,
                                                   AuctionEndTime(now, req.auctionDays.value, req.endTime))]))
      ensures outcome.NotCreated? && outcome.error in {GameCreateFailed, MissingAuctionFields,
                                                       InvalidTimeFormat, ListingInsertFailed} ==>
                listings == old(listings) && auctions == old(auctions)
      ensures outcome == NotCreated(AuctionInsertFailed) ==>
                && auctions == old(auctions) && session.Profile? && req.gameTitle in games
                && exists id: ListingId ::
                     (id !in old(listings)
                      && listings == old(listings)[id := NewListing(session.id, games[req.gameTitle], req)])
      ensures forall id :: id in old(auctions) ==> id in auctions && auctions[id] == old(auctions)[id]
      ensures old(PricesTrack(auctions, bids)) ==> PricesTrack(auctions, bids)
    {
      if session.Anonymous? {
        return NotCreated(CreateUnauthorized);
      }
      if !RequiredFieldsPresent(req) {
        return NotCreated(MissingRequiredFields);
      }
      if session.NoProfile? {
        return NotCreated(SellerProfileNotFound);
      }
      var game := GameFor(req.gameTitle, faults.gameInsertFails);
      if game.None? {
        return NotCreated(GameCreateFailed);
      }
      var end: Millis := 0;
      if IsAuction(req) {
        var e := AuctionFieldsError(req);
        if e.Some? {
          return NotCreated(e.value);
        }
        end := AuctionEndTime(now, req.auctionDays.value, req.endTime);
      }
      if faults.listingInsertFails {
        return NotCreated(ListingInsertFailed);
      }
      ghost var before := auctions;
      var listingId := InsertListing(NewListing(session.id, game.value, req));
      if IsAuction(req) {
        if faults.auctionInsertFails {
          return NotCreated(AuctionInsertFailed);
        }
        ghost var priced := PricesTrack(auctions, bids);
        var id := InsertAuction(NewAuction(listingId, req, end));
        if priced {
          NewAuctionKeepsPricesTracking(before, bids, id, auctions[id]);
        }
      }
      outcome := Created(listingId);
    }
  }

  /**
   * Once a buy-now succeeds, a later bid and a later buy-now on the same auction are
   * both turned away, whatever their callers, amounts and instants, and whichever of
   * the purchase's own logged writes failed.
   */
  method BuyNowEndsAuction(s: Store, buyer: Session, auctionId: Option<AuctionId>, now: Millis,
                           bidder: Session, amount: AmountField, later: Millis,
                           second: Session, firstFaults: BuyNowFaults, bidFaults: BidFaults,
                           buyFaults: BuyNowFaults)
    returns (first: BuyNowOutcome, bid: BidVerdict, again: BuyNowOutcome)
    requires s.Valid()
    modifies s
    ensures first.Bought? ==> bid.Reject? && again.NotBought?
  {
    first := s.BuyNow(buyer, auctionId, now, firstFaults);
    bid := s.PlaceBid(bidder, auctionId, amount, later, bidFaults);
    again := s.BuyNow(second, auctionId, later, buyFaults);
    if first.Bought? {
      assert s.auctions[auctionId.value].status == Ended;
      InactiveAuctionIsFinal(bidder, auctionId.value, amount, s.auctions, s.listings, s.bids, later);
    }
  }
}
