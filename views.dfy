/** The stateful part of auctions/views.py: the `listing()` view acting on
    an auction listing record (its status, winner, bids and comments) and on
    the requesting user's watchlist, and the bid form's minimum hint.
    Persistence is modelled as the fields of the two record classes; a
    request is handled to completion before the next one starts. */
module Views {
  import opened Models

  type ListingId = nat

  /** A stored auction listing. Only the fields the bid, comment and close
      workflow reads or writes are modelled. */
  class AuctionListing {
    const id: ListingId
    const owner: UserId
    const startingBid: real
    var status: Status
    var winner: Option<UserId>
    var bids: seq<Bid>
    var comments: seq<Comment>

    /** What every listing keeps while it changes only through its
        constructor and the `listing()` view (edits through the admin site
        are not modelled): a starting bid that passed its validator, a ledger
        built only from validated bids, and a winner only on a closed listing
        and only among its bidders. */
    ghost predicate Valid()
      reads this
    {
      MinValue <= startingBid &&
      LedgerValid(startingBid, bids) &&
      (winner.Some? ==> status == Closed && exists b :: b in bids && b.bidder == winner.value)
    }

    /** A listing as `create_listing` saves it: open, no winner, no bids. */
    constructor (id: ListingId, owner: UserId, startingBid: real)
      requires MinValue <= startingBid
      ensures Valid()
      ensures this.id == id && this.owner == owner && this.startingBid == startingBid
      ensures status == Open && winner == None && bids == [] && comments == []
    {
      this.id := id;
      this.owner := owner;
      this.startingBid := startingBid;
      status := Open;
      winner := None;
      bids := [];
      comments := [];
    }

    /** The bid branch: validate the proposal against the current ledger and
        store it when valid. The listing's status is not consulted. */
    method PlaceBid(bidder: UserId, amount: real) returns (errors: seq<BidError>)
      requires Valid()
      modifies this
      ensures Valid()
      ensures errors == ValidateBid(startingBid, old(bids), amount)
      ensures bids == Record(startingBid, old(bids), bidder, amount)
      ensures errors == [] ==> bids == old(bids) + [Bid(bidder, amount)] && HighestBid(bids) == Some(Bid(bidder, amount))
      ensures errors != [] ==> unchanged(this)
      ensures status == old(status) && winner == old(winner) && comments == old(comments)
    {
      errors := ValidateBid(startingBid, bids, amount);
      RecordKeepsLedger(startingBid, bids, bidder, amount);
      if errors == [] {
        bids := bids + [Bid(bidder, amount)];
      }
    }

    /** The comment branch: store the comment when the form validates. */
    method AddComment(author: UserId, text: string) returns (errors: seq<CommentError>)
      requires Valid()
      modifies this
      ensures Valid()
      ensures errors == CommentErrors(text)
      ensures comments == if errors == [] then old(comments) + [Comment(author, text)] else old(comments)
      ensures errors != [] ==> unchanged(this)
      ensures status == old(status) && winner == old(winner) && bids == old(bids)
    {
      errors := CommentErrors(text);
      if errors == [] {
        comments := comments + [Comment(author, text)];
      }
    }

    /** The close branch: only the owner may close; the winner becomes the
        bidder of the highest bid when there is one. An already closed
        listing is closed again and its winner recomputed. */
    method Close(caller: UserId) returns (closed: bool)
      requires Valid()
      modifies this
      ensures Valid()
      ensures closed == (caller == owner)
      ensures status == if closed then Closed else old(status)
      ensures closed && bids != [] ==>
                winner == Some(bids[|bids| - 1].bidder) &&
                forall b :: b in bids ==> b.amount <= bids[|bids| - 1].amount
      ensures !(closed && bids != []) ==> winner == old(winner)
      ensures !closed ==> unchanged(this)
      ensures closed && bids == [] ==> winner == None
      ensures bids == old(bids) && comments == old(comments)
    {
      closed := caller == owner;
      if closed {
        status := Closed;
        var highest := HighestBid(bids);
        if highest.Some? {
          winner := Some(highest.value.bidder);
        }
      }
    }
  }

  /** Toggling one listing in a watchlist: present becomes absent and absent
      becomes present; no other listing is affected. */
  function Toggled(watchlist: set<ListingId>, listing: ListingId): (r: set<ListingId>)
    ensures listing in r <==> listing !in watchlist
    ensures forall other :: other != listing ==> (other in r <==> other in watchlist)
  {
    if listing in watchlist then watchlist - {listing} else watchlist + {listing}
  }

  lemma ToggleTwiceRestores(watchlist: set<ListingId>, listing: ListingId)
    ensures Toggled(Toggled(watchlist, listing), listing) == watchlist
  {
  }

  /** A registered user; only the watchlist is modelled. */
  class User {
    const id: UserId
    var watchlist: set<ListingId>

    constructor (id: UserId)
      ensures this.id == id && watchlist == {}
    {
      this.id := id;
      watchlist := {};
    }

    /** The watchlist branch: remove the listing when it is watched, add it otherwise. */
    method ToggleWatch(listing: ListingId) returns (added: bool)
      modifies this
      ensures added == (listing !in old(watchlist))
      ensures watchlist == Toggled(old(watchlist), listing)
    {
      added := listing !in watchlist;
      if added {
        watchlist := watchlist + {listing};
      } else {
        watchlist := watchlist - {listing};
      }
    }
  }

  /** The `min_bid` the listing page passes to its bid form: the highest
      bid's amount when there is one, else the starting bid. */
  function MinBid(startingBid: real, bids: seq<Bid>): (m: real)
    ensures bids == [] ==> m == startingBid
    ensures bids != [] ==> (exists b :: b in bids && b.amount == m) && forall b :: b in bids ==> b.amount <= m
  {
    match HighestBid(bids)
    case Some(highest) => highest.amount
    case None => startingBid
  }

  /** The widget attribute values of the bid form. */
  datatype AttrValue = Number(n: real) | Text(s: string)

  /** `BidForm`: the `bid` field's widget attributes, with `min` set one
      step above the given `min_bid` when one is given. */
  class BidForm {
    var attrs: map<string, AttrValue>

    constructor (minBid: Option<real>)
      ensures "step" in attrs && attrs["step"] == Number(1.0)
      ensures "placeholder" in attrs && attrs["placeholder"] == Text("Bid")
      ensures minBid.Some? ==> "min" in attrs && attrs["min"] == Number(minBid.value + 1.0)
      ensures minBid.None? ==> "min" !in attrs
      ensures attrs.Keys == {"step", "placeholder"} + (if minBid.Some? then {"min"} else {})
    {
      var initial := map["step" := Number(1.0), "placeholder" := Text("Bid")];
      attrs := initial;
      new;
      if minBid.Some? {
        attrs := attrs["min" := Number(minBid.value + 1.0)];
      }
    }
  }

  /** Every amount at or above the rendered minimum passes validation. */
  lemma HintAdmitsOnlyValidBids(startingBid: real, bids: seq<Bid>, amount: real)
    requires MinValue <= startingBid && LedgerValid(startingBid, bids)
    requires MinBid(startingBid, bids) + 1.0 <= amount
    ensures ValidateBid(startingBid, bids, amount) == []
  {
  }

  /** The rendered minimum is not the least valid amount: the starting bid
      itself, and anything strictly between the highest bid and one above
      it, pass validation while lying below the hint. */
  lemma HintExcludesSomeValidBids(startingBid: real, bids: seq<Bid>)
    requires MinValue <= startingBid && LedgerValid(startingBid, bids)
    ensures bids == [] ==>
              ValidateBid(startingBid, bids, startingBid) == [] && startingBid < MinBid(startingBid, bids) + 1.0
    ensures bids != [] ==>
              var between := MinBid(startingBid, bids) + 0.5;
              ValidateBid(startingBid, bids, between) == [] && between < MinBid(startingBid, bids) + 1.0
  {
  }

  /** The page's bid form: every amount at or above its `min` attribute
      passes validation. */
  method RenderedMinimumIsSafe(startingBid: real, bids: seq<Bid>, amount: real) returns (form: BidForm)
    requires MinValue <= startingBid && LedgerValid(startingBid, bids)
    ensures "min" in form.attrs && form.attrs["min"].Number?
    ensures form.attrs["min"].n <= amount ==> ValidateBid(startingBid, bids, amount) == []
  {
    form := new BidForm(Some(MinBid(startingBid, bids)));
    if form.attrs["min"].n <= amount {
      HintAdmitsOnlyValidBids(startingBid, bids, amount);
    }
  }

  /** The form discriminator `form_type` of a POST, with its payload. */
  datatype Submission =
    | BidSubmission(amount: real)
    | CommentSubmission(text: string)
    | WatchlistSubmission
    | CloseSubmission
    | UnknownSubmission

  /** Which branch of the view ran. A refusal carries the errors the bound
      form held; the page itself drops that form and does not show them. */
  datatype Outcome =
    | Shown
    | LoginRequired
    | BidPlaced
    | BidRefused(errors: seq<BidError>)
    | CommentAdded
    | CommentRefused(reasons: seq<CommentError>)
    | AddedToWatchlist
    | RemovedFromWatchlist
    | ClosedWithWinner
    | ClosedWithoutWinner
    | CloseRefused
    | InvalidSubmission

  /** The `listing()` view on an existing listing. `user` is null for an
      anonymous visitor; `post` is None for a GET. The page reads the highest
      bid before acting, so the closing branch and the bid check see the same
      ledger. */
  method ListingView(listing: AuctionListing, user: User?, post: Option<Submission>) returns (outcome: Outcome)
    requires listing.Valid()
    modifies listing, user
    ensures listing.Valid()
    ensures post.None? ==> outcome == Shown && unchanged(listing) && (user != null ==> unchanged(user))
    ensures post.Some? && user == null ==> outcome == LoginRequired && unchanged(listing)
    ensures post.Some? && user != null ==>
              match post.value
              case BidSubmission(amount) =>
                var errors := ValidateBid(listing.startingBid, old(listing.bids), amount);
                outcome == (if errors == [] then BidPlaced else BidRefused(errors)) &&
                (errors != [] ==> unchanged(listing)) &&
                listing.bids == Record(listing.startingBid, old(listing.bids), user.id, amount) &&
                listing.status == old(listing.status) && listing.winner == old(listing.winner) &&
                listing.comments == old(listing.comments) && unchanged(user)
              case CommentSubmission(text) =>
                var reasons := CommentErrors(text);
                outcome == (if reasons == [] then CommentAdded else CommentRefused(reasons)) &&
                listing.comments ==
                  (if reasons == [] then old(listing.comments) + [Comment(user.id, text)] else old(listing.comments)) &&
                listing.status == old(listing.status) && listing.winner == old(listing.winner) &&
                listing.bids == old(listing.bids) && unchanged(user)
              case WatchlistSubmission =>
                outcome == (if listing.id in old(user.watchlist) then RemovedFromWatchlist else AddedToWatchlist) &&
                user.watchlist == Toggled(old(user.watchlist), listing.id) && unchanged(listing)
              case CloseSubmission =>
                (user.id == listing.owner ==>
                   listing.status == Closed &&
                   (listing.bids != [] ==> outcome == ClosedWithWinner &&
                                           listing.winner == Some(listing.bids[|listing.bids| - 1].bidder)) &&
                   (listing.bids == [] ==> outcome == ClosedWithoutWinner && listing.winner == None) &&
                   listing.bids == old(listing.bids) && listing.comments == old(listing.comments)) &&
                (user.id != listing.owner ==> outcome == CloseRefused && unchanged(listing)) &&
                unchanged(user)
              case UnknownSubmission =>
                outcome == InvalidSubmission && unchanged(listing) && unchanged(user)
  {
    if post.None? {
      return Shown;
    }
    if user == null {
      return LoginRequired;
    }
    match post.value
    case BidSubmission(amount) =>
      var errors := listing.PlaceBid(user.id, amount);
      outcome := if errors == [] then BidPlaced else BidRefused(errors);
    case CommentSubmission(text) =>
      var reasons := listing.AddComment(user.id, text);
      outcome := if reasons == [] then CommentAdded else CommentRefused(reasons);
    case WatchlistSubmission =>
      var added := user.ToggleWatch(listing.id);
      outcome := if added then AddedToWatchlist else RemovedFromWatchlist;
    case CloseSubmission =>
      var closed := listing.Close(user.id);
      outcome := if !closed then CloseRefused
                 else if listing.bids != [] then ClosedWithWinner
                 else ClosedWithoutWinner;
    case UnknownSubmission =>
      outcome := InvalidSubmission;
  }

  /** The worked example of a listing with a starting bid of 10.00: 9.99 is
      below the starting bid, 10.00 is accepted, a second 10.00 is not above
      the highest bid, 15.00 is accepted, and the owner's close makes the
      15.00 bidder the winner. */
  method StartingBidScenario(owner: UserId, alice: UserId, bob: UserId)
    returns (first: seq<BidError>, second: seq<BidError>, third: seq<BidError>, fourth: seq<BidError>,
             winner: Option<UserId>)
    requires owner != alice && owner != bob && alice != bob
    ensures first == [BelowStartingBid(10.0)] && second == [] && third == [NotAboveHighest(10.0)] && fourth == []
    ensures winner == Some(bob)
  {
    var listing := new AuctionListing(1, owner, 10.0);
    first := listing.PlaceBid(alice, 9.99);
    second := listing.PlaceBid(alice, 10.0);
    third := listing.PlaceBid(bob, 10.0);
    fourth := listing.PlaceBid(bob, 15.0);
    var closed := listing.Close(owner);
    winner := listing.winner;
  }

  /** Neither bidding after a close nor closing twice is refused: a bid on a
      closed listing is stored and a second close by the owner hands the
      win to the new highest bidder. A non-owner's close changes nothing. */
  method ReclosingMovesWinner(owner: UserId, alice: UserId, bob: UserId)
    returns (intruderClosed: bool, firstWinner: Option<UserId>, lateBid: seq<BidError>,
             finalStatus: Status, finalWinner: Option<UserId>)
    requires owner != alice && owner != bob && alice != bob
    ensures !intruderClosed
    ensures firstWinner == Some(alice)
    ensures lateBid == []
    ensures finalStatus == Closed && finalWinner == Some(bob)
  {
    var listing := new AuctionListing(2, owner, 1.0);
    var errors := listing.PlaceBid(alice, 5.0);
    intruderClosed := listing.Close(bob);
    var closed := listing.Close(owner);
    firstWinner := listing.winner;
    lateBid := listing.PlaceBid(bob, 7.0);
    closed := listing.Close(owner);
    finalStatus, finalWinner := listing.status, listing.winner;
  }
}
