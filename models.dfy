/** The pure part of auctions/models.py: the bid ledger of one auction
    listing, the `highest_bid` query over it, and the bid acceptance rule of
    `Bid.clean` together with the field validator that Django runs before it.
    Amounts are mathematical reals: the source stores them in float fields
    but only ever compares them. */
module Models {

  type UserId = nat

  datatype Option<+T> = None | Some(value: T)

  /** The bound of the `MinValueValidator` on both `starting_bid` and `bid`. */
  const MinValue: real := 0.01

  /** The two choices of `AuctionListing.status`. */
  datatype Status = Open | Closed

  /** The value stored in the status column (a `CharField` of at most six characters). */
  function StatusCode(s: Status): (code: string)
    ensures 0 < |code| <= 6
  {
    match s
    case Open => "OPEN"
    case Closed => "CLOSED"
  }

  /** Reads a stored status column back; anything outside the choices is refused. */
  function ParseStatus(code: string): (r: Option<Status>)
    ensures r.Some? ==> StatusCode(r.value) == code
  {
    if code == "OPEN" then Some(Open)
    else if code == "CLOSED" then Some(Closed)
    else None
  }

  lemma StatusCodeRoundTrip(s: Status)
    ensures ParseStatus(StatusCode(s)) == Some(s)
    ensures StatusCode(s) != StatusCode(if s == Open then Closed else Open)
  {
  }

  /** One row of the bid table, as seen from its listing: who bid and how much. */
  datatype Bid = Bid(bidder: UserId, amount: real)

  /** One row of the comment table, as seen from its listing. */
  datatype Comment = Comment(author: UserId, text: string)

  /** The `max_length` of `Comment.comment`. */
  const CommentMaxLength: nat := 128

  /** The reasons `CommentForm` refuses a comment text. */
  datatype CommentError = Required | TooLong | NullCharacter

  /** The errors Django's form field reports for the (already
      whitespace-stripped) comment text: an empty text is only reported as
      required; otherwise the length validator and then the null-character
      validator that every form `CharField` carries. */
  function CommentErrors(text: string): (errors: seq<CommentError>)
    ensures errors == [] <==>
              0 < |text| <= CommentMaxLength && forall i :: 0 <= i < |text| ==> text[i] != '\0'
    ensures text == [] ==> errors == [Required]
    ensures Required in errors <==> text == []
    ensures |errors| <= 2
    ensures TooLong in errors <==> |text| > CommentMaxLength
    ensures NullCharacter in errors <==> text != [] && exists i :: 0 <= i < |text| && text[i] == '\0'
    ensures TooLong in errors && NullCharacter in errors ==> errors == [TooLong, NullCharacter]
  {
    if text == [] then [Required]
    else (if |text| > CommentMaxLength then [TooLong] else []) +
         (if '\0' in text then [NullCharacter] else [])
  }

  /** `AuctionListing.highest_bid`: the first row of the listing's bids
      ordered by descending amount, or none when there are no bids. Among
      bids of equal amount the earliest one is taken. */
  function HighestBid(bids: seq<Bid>): (r: Option<Bid>)
    ensures r.None? <==> bids == []
    ensures r.Some? ==> r.value in bids
    ensures r.Some? ==> forall b :: b in bids ==> b.amount <= r.value.amount
  {
    if bids == [] then None
    else
      var rest := HighestBid(bids[1..]);
      if rest.None? || rest.value.amount <= bids[0].amount then Some(bids[0]) else rest
  }

  /** The reasons a proposed bid is refused, in the words of the source's
      validation messages. */
  datatype BidError =
    | BelowMinValue                        // the field's MinValueValidator(0.01)
    | NotAboveHighest(highest: real)       // "must be greater than the current highest bid"
    | BelowStartingBid(startingBid: real)  // "must be at least the starting bid"

  /** `Bid.clean`: the current highest bid is consulted first, and the
      starting bid only when that check passes. None means no error. */
  function Clean(startingBid: real, bids: seq<Bid>, amount: real): (r: Option<BidError>)
    ensures r.None? <==> (forall b :: b in bids ==> b.amount < amount) && startingBid <= amount
    ensures (r.Some? && r.value.NotAboveHighest?) <==> exists b :: b in bids && amount <= b.amount
    ensures r.Some? && r.value.NotAboveHighest? ==>
              (exists b :: b in bids && b.amount == r.value.highest) &&
              (forall b :: b in bids ==> b.amount <= r.value.highest)
    ensures r == Some(BelowStartingBid(startingBid)) <==>
              (forall b :: b in bids ==> b.amount < amount) && amount < startingBid
    ensures r.Some? ==> r.value.NotAboveHighest? || r == Some(BelowStartingBid(startingBid))
  {
    var highest := HighestBid(bids);
    if highest.Some? && amount <= highest.value.amount then
      Some(NotAboveHighest(highest.value.amount))
    else if amount < startingBid then
      Some(BelowStartingBid(startingBid))
    else
      None
  }

  /** The errors Django's model validation reports for the `bid` field of a
      new bid: the field validators first, then `clean`, collected in that
      order. The bid is valid exactly when the list is empty. */
  function ValidateBid(startingBid: real, bids: seq<Bid>, amount: real): (errors: seq<BidError>)
    ensures errors == [] <==>
              MinValue <= amount && startingBid <= amount && forall b :: b in bids ==> b.amount < amount
    ensures |errors| <= 2
    ensures amount < MinValue ==> errors[0] == BelowMinValue
    ensures BelowMinValue in errors <==> amount < MinValue
    ensures Clean(startingBid, bids, amount).Some? ==> errors[|errors| - 1] == Clean(startingBid, bids, amount).value
    ensures Clean(startingBid, bids, amount).None? ==> errors == if amount < MinValue then [BelowMinValue] else []
    ensures MinValue <= startingBid ==> (errors == [] <==> Clean(startingBid, bids, amount).None?)
  {
    var fieldErrors := if amount < MinValue then [BelowMinValue] else [];
    var cleanErrors := match Clean(startingBid, bids, amount)
      case None => []
      case Some(e) => [e];
    fieldErrors + cleanErrors
  }

  /** Amounts strictly increase in the order the bids were stored. */
  ghost predicate StrictlyIncreasing(bids: seq<Bid>)
  {
    forall i, j :: 0 <= i < j < |bids| ==> bids[i].amount < bids[j].amount
  }

  /** What every ledger built only from validated bids satisfies. */
  ghost predicate LedgerValid(startingBid: real, bids: seq<Bid>)
  {
    StrictlyIncreasing(bids) &&
    forall b :: b in bids ==> MinValue <= b.amount && startingBid <= b.amount
  }

  /** Recording a proposed bid: the bid is appended when it validates and
      the ledger is left as it was otherwise. */
  function Record(startingBid: real, bids: seq<Bid>, bidder: UserId, amount: real): (r: seq<Bid>)
    ensures r == bids || r == bids + [Bid(bidder, amount)]
    ensures r == bids + [Bid(bidder, amount)] <==>
              MinValue <= amount && startingBid <= amount && forall b :: b in bids ==> b.amount < amount
  {
    if ValidateBid(startingBid, bids, amount) == [] then bids + [Bid(bidder, amount)] else bids
  }

  /** Submitting a series of proposed bids one after the other. */
  function Replay(startingBid: real, bids: seq<Bid>, proposals: seq<Bid>): (r: seq<Bid>)
    ensures bids <= r && |r| <= |bids| + |proposals|
    ensures forall i :: |bids| <= i < |r| ==> r[i] in proposals
    decreases |proposals|
  {
    if proposals == [] then bids
    else Replay(startingBid, Record(startingBid, bids, proposals[0].bidder, proposals[0].amount), proposals[1..])
  }

  /** In a strictly increasing ledger the highest bid is the last one stored. */
  lemma LastIsHighest(bids: seq<Bid>)
    requires StrictlyIncreasing(bids)
    requires bids != []
    ensures HighestBid(bids) == Some(bids[|bids| - 1])
  {
    // The maximal bid HighestBid returns is unique in a strictly increasing ledger.
  }

  /** Recording a proposal keeps the ledger invariant, appends exactly the
      requesting bidder's bid when it is accepted, and appends nothing when
      it is refused. */
  lemma RecordKeepsLedger(startingBid: real, bids: seq<Bid>, bidder: UserId, amount: real)
    requires LedgerValid(startingBid, bids)
    ensures LedgerValid(startingBid, Record(startingBid, bids, bidder, amount))
    ensures ValidateBid(startingBid, bids, amount) == [] ==>
              Record(startingBid, bids, bidder, amount) == bids + [Bid(bidder, amount)] &&
              HighestBid(Record(startingBid, bids, bidder, amount)) == Some(Bid(bidder, amount))
    ensures ValidateBid(startingBid, bids, amount) != [] ==> Record(startingBid, bids, bidder, amount) == bids
  {
    if ValidateBid(startingBid, bids, amount) == [] {
      var next := bids + [Bid(bidder, amount)];
      assert Record(startingBid, bids, bidder, amount) == next;
      forall i, j | 0 <= i < j < |next| ensures next[i].amount < next[j].amount {
        if j < |bids| {
          assert next[i] == bids[i] && next[j] == bids[j];
        } else {
          assert next[i] in bids;
        }
      }
      assert forall b :: b in next ==> b in bids || b == Bid(bidder, amount);
      LastIsHighest(next);
    }
  }

  /** Whatever series of bids is submitted, starting from a valid ledger
      (the empty one, for instance), the ledger stays strictly increasing and
      every stored bid respects both minimums, and no stored bid is lost. */
  lemma {:induction false} ReplayKeepsLedger(startingBid: real, bids: seq<Bid>, proposals: seq<Bid>)
    requires LedgerValid(startingBid, bids)
    ensures LedgerValid(startingBid, Replay(startingBid, bids, proposals))
    ensures bids <= Replay(startingBid, bids, proposals)
    ensures |Replay(startingBid, bids, proposals)| <= |bids| + |proposals|
    decreases |proposals|
  {
    if proposals != [] {
      var next := Record(startingBid, bids, proposals[0].bidder, proposals[0].amount);
      RecordKeepsLedger(startingBid, bids, proposals[0].bidder, proposals[0].amount);
      ReplayKeepsLedger(startingBid, next, proposals[1..]);
    }
  }

  /** Because every stored bid is at least the starting bid, a proposal can
      only be refused for being below the starting bid while the ledger is
      empty; otherwise the highest-bid check refuses it first. */
  lemma BelowStartingOnlyWhenEmpty(startingBid: real, bids: seq<Bid>, amount: real)
    requires LedgerValid(startingBid, bids)
    requires Clean(startingBid, bids, amount) == Some(BelowStartingBid(startingBid))
    ensures bids == []
  {
  }

  /** Under the ledger invariant the current highest amount is the one that
      `Clean` reports, and it is that of the last bid stored. */
  lemma RefusalNamesLastBid(startingBid: real, bids: seq<Bid>, amount: real)
    requires LedgerValid(startingBid, bids)
    requires bids != []
    requires amount <= bids[|bids| - 1].amount
    ensures Clean(startingBid, bids, amount) == Some(NotAboveHighest(bids[|bids| - 1].amount))
  {
  }
}
