/**
 * The rows of the marketplace's entity store that the auction handlers read and write:
 * listings, auctions, bids and transactions. Money is in whole cents and instants are
 * milliseconds on the server's local clock.
 */
module Entities {
  import opened Wrappers

  type UserId = nat
  type GameId = nat
  type ListingId = nat
  type AuctionId = nat
  /** An amount of money in cents. */
  type Cents = int
  /** An instant, in milliseconds. */
  type Millis = int

  datatype AuctionStatus = Active | Ended | Cancelled

  datatype ListingStatus = ListingActive | ListingSold | ListingInactive

  datatype EscrowStatus = EscrowPending

  /** A `listings` row. `listing_type` and `condition` are stored as sent by the client. */
  datatype Listing = Listing(
    seller_id: UserId,
    game_id: GameId,
    listing_type: string,
    price: Option<Cents>,
    currency: string,
    condition: string,
    location_country: string,
    location_city: string,
    photos: seq<string>,
    description_en: string,
    status: ListingStatus)

  /** An `auctions` row. `extension_time` (seconds) is stored but no handler reads it. */
  datatype Auction = Auction(
    listing_id: ListingId,
    starting_price: Cents,
    current_price: Cents,
    reserve_price: Option<Cents>,
    bid_increment: Cents,
    end_time: Millis,
    extension_time: int,
    buy_now_price: Option<Cents>,
    status: AuctionStatus,
    winner_id: Option<UserId>,
    minimum_bid: Cents)

  /** A `bids` row; the store keeps them in insertion order. */
  datatype Bid = Bid(auction_id: AuctionId, bidder_id: UserId, amount: Cents, is_proxy: bool)

  /** A `transactions` row written when a sale completes. */
  datatype Transaction = Transaction(
    listing_id: ListingId,
    buyer_id: UserId,
    seller_id: UserId,
    amount: Cents,
    platform_fee: Cents,
    vat_amount: Cents,
    escrow_status: EscrowStatus,
    completed_at: Millis)

  /**
   * Who is calling: no signed-in user (the identity provider returned no user id),
   * a signed-in user without a profile row, or a user with profile id `id`.
   */
  datatype Session = Anonymous | NoProfile | Profile(id: UserId)
}
