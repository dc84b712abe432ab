# Auction listing bid ledger and close workflow

A Dafny model of the part of a small Django auction site that has
behaviour of its own: the per-listing bid ledger, its acceptance rule, the
owner's close workflow that declares a winner, the watchlist toggle, and the
minimum-bid hint of the listing page.

- `models.dfy`, module `Models` (auctions/models.py, pure). Bids are values
  `Bid(bidder, amount)` and a listing's bids are a `seq<Bid>` in the order
  they were stored. `HighestBid` is `AuctionListing.highest_bid`. `Clean` is
  `Bid.clean`. `ValidateBid` puts both checks in the order Django runs
  them: the field's `MinValueValidator(0.01)`, then `clean`. The predicate
  `LedgerValid` is the invariant that a ledger built only from validated bids
  keeps: amounts strictly increase, and each one is at least 0.01 and at
  least the starting bid. `CommentErrors` is the comment form's field
  validation. `Record` and `Replay` say what submitting one bid,
  or a series of bids, does to the ledger.
- `views.dfy`, module `Views` (auctions/views.py, imperative). The class
  `AuctionListing` holds the fields the view changes in place: status,
  winner, bids and comments. The class `User` holds the watchlist. The
  methods `PlaceBid`, `AddComment`, `Close` and `ToggleWatch` are the
  branches of `listing()`, and `ListingView` is the view's dispatch,
  including the guard against anonymous POSTs. `MinBid` is the `min_bid`
  selection and `BidForm` is the form whose widget gets the `min` attribute.
  Two scenario methods show what callers can prove from these contracts: the
  starting-bid worked example, and a second close after a late bid.

Amounts are mathematical reals. The source stores them in float fields, but
it only compares them, plus one `+ 1` for the hint.

Anonymous visitors are `user == null`. A GET is `post == None`.

The model keeps these behaviours of the code, which a stricter design might
have ruled out:
- `clean` checks the current highest bid before the starting bid.
- A closed listing still accepts bids.
- Closing an already closed listing is allowed and recomputes the winner
  from the current highest bid.
- Closing a listing with no bids leaves `winner` as it was. The invariant
  `AuctionListing.Valid` shows that it is then still none.

## Model

| member | source | states |
|---|---|---|
| `Models.StatusCode` | auctions/models.py:49-57 | each status is stored as a non-empty code that fits the six-character column |
| `Models.ParseStatus` | auctions/models.py:49-57 | a stored code is read back only as the status it encodes; any other string is refused |
| `Models.StatusCodeRoundTrip` | auctions/models.py:49-57 | reading a stored status back gives the same status; the two codes differ |
| `Models.HighestBid` | auctions/models.py:66-67 | none exactly when there are no bids; otherwise a bid of the listing whose amount is at least every other bid's |
| `Models.Clean` | auctions/models.py:99-111 | accepts exactly when the amount exceeds every stored bid and is at least the starting bid; refuses as "not above highest" exactly when some stored bid is at least as high, and then names the maximum amount; refuses as "below starting bid" exactly when the amount beats every bid but is under the starting bid, so the highest-bid refusal wins when both checks fail |
| `Models.ValidateBid` | auctions/models.py:77-111 | no errors exactly when the amount is at least 0.01, at least the starting bid and above every stored bid; at most two errors; the field validator's error is listed exactly when the amount is below 0.01 and comes first, and `clean`'s error, when there is one, comes last; with a valid starting bid, validity coincides with `clean` passing |
| `Models.CommentErrors` | auctions/models.py:115 | no errors exactly when the text is non-empty, at most 128 characters long, and free of null characters; an empty text is reported only as required; a too-long text is reported exactly when it exceeds 128 characters, a null character exactly when a non-empty text contains one, and when both apply the length error comes first |
| `Models.Record` | auctions/views.py:136-141 | the ledger either stays as it was or gains exactly the requester's bid; it gains the bid exactly when the amount is at least 0.01, at least the starting bid and above every stored bid |
| `Models.Replay` | auctions/views.py:136-141 | a series of submissions keeps the earlier bids as a prefix, adds at most one bid per submission, and adds only bids that were submitted |
| `Models.LastIsHighest` | auctions/models.py:66-67 | in a strictly increasing ledger the highest bid is the last one stored |
| `Models.RecordKeepsLedger` | auctions/views.py:136-141 | recording keeps the ledger invariant; an accepted bid appends exactly the requester's bid, which becomes the highest; a refused one appends nothing |
| `Models.ReplayKeepsLedger` | auctions/views.py:136-141 | for every series of submitted bids the ledger stays strictly increasing and above both minimums, keeps its earlier bids as a prefix, and grows by at most one bid per submission |
| `Models.BelowStartingOnlyWhenEmpty` | auctions/models.py:102-111 | on a valid ledger, a below-starting-bid refusal happens only when there are no bids |
| `Models.RefusalNamesLastBid` | auctions/models.py:102-106 | on a valid ledger, an amount not above the last bid is refused with that bid's amount as the current highest |
| `Views.AuctionListing.constructor` | auctions/models.py:37-64 | a new listing is open, has no winner, no bids and no comments, and its starting bid meets the 0.01 minimum |
| `Views.AuctionListing.PlaceBid` | auctions/views.py:136-141 | returns exactly the validation errors; on acceptance appends the requester's bid, which becomes the highest; on refusal nothing changes; status is not consulted and status, winner and comments are untouched; the invariant is kept |
| `Views.AuctionListing.AddComment` | auctions/views.py:143-148 | returns exactly the comment form's errors; appends the author's comment exactly when there are none, and otherwise changes nothing; status, winner and bids are untouched |
| `Views.AuctionListing.Close` | auctions/views.py:159-169 | closes exactly when the caller is the owner, also when already closed; the winner becomes the bidder of the last and highest bid when there are bids, and is otherwise left as it was, which is none; a non-owner changes nothing; bids and comments are untouched |
| `Views.Toggled` | auctions/views.py:150-157 | the toggled listing's membership flips and every other listing's membership stays |
| `Views.ToggleTwiceRestores` | auctions/views.py:150-157 | toggling the same listing twice restores the original watchlist |
| `Views.User.constructor` | auctions/models.py:8-9 | a new user's watchlist is empty |
| `Views.User.ToggleWatch` | auctions/views.py:150-157 | removes the listing when it was watched and adds it otherwise, reporting which |
| `Views.MinBid` | auctions/views.py:126-127 | the starting bid when there are no bids; otherwise an amount of a stored bid that is at least every bid's amount |
| `Views.BidForm.constructor` | auctions/views.py:17-30 | the widget keeps its step of 1 and its placeholder and gets a `min` of `min_bid + 1` exactly when a `min_bid` is given |
| `Views.HintAdmitsOnlyValidBids` | auctions/views.py:26-30 | every amount at or above the rendered minimum passes validation |
| `Views.HintExcludesSomeValidBids` | auctions/views.py:26-30 | the rendered minimum is not the least valid amount: with no bids the starting bid itself is valid but below it, and with bids an amount half a unit above the highest is valid but below it |
| `Views.RenderedMinimumIsSafe` | auctions/views.py:26-30 | the bid form built from the page's `min_bid` has a numeric `min` attribute, and every amount at or above it passes validation |
| `Views.ListingView` | auctions/views.py:114-179 | a GET changes nothing; an anonymous POST changes nothing and asks to log in; otherwise the submitted form selects the bid, comment, watchlist or close branch with the effects above, and an unknown form changes nothing; the listing invariant is kept |
| `Views.StartingBidScenario` | auctions/views.py:126-167 | with a starting bid of 10.00: 9.99 is below the starting bid, 10.00 is accepted, a second 10.00 is not above the highest, 15.00 is accepted, and the owner's close makes the 15.00 bidder the winner |
| `Views.ReclosingMovesWinner` | auctions/views.py:136-169 | a non-owner cannot close; after the owner closes, a later bid is still accepted, and a second close makes its bidder the winner |

## Left out

- Login, logout and registration: Django authentication and session handling. The model takes the requesting user, or none, as a parameter.
- Template rendering, flash messages, redirects and the not-found error for a missing listing. `ListingView` takes an existing listing and returns which branch ran. On a refusal it also returns the errors held by the bound form. The page never shows those errors: it drops the bound form, flashes only "Invalid form submission." (auctions/views.py:171), and renders fresh unbound forms (auctions/views.py:175-176). The same message is also flashed after a close.
- The `index`, category and watchlist pages and the URL table: queries and display only.
- Edits through the admin site (auctions/admin.py:22-26). Its change forms can alter `starting_bid`, `status`, `winner` and a stored bid's amount. `AuctionListing.Valid` assumes that listings and bids change only through the listing constructor (`create_listing`) and the `listing()` view. Admin edits can break it: raising the starting bid above a stored bid, setting a winner on an open listing, or editing an early bid above a later one so the ledger stops increasing.
- The `create_listing` form: the listing constructor requires the starting bid that the form's validator enforces. Title, description, image, category and date are not modelled.
- Delete policies (cascade, set-null, protect): database referential integrity.
- Concurrent bid submissions: requests are handled one after another.
- Float semantics: amounts are reals.
- A bid amount that is empty or not a number: the form field refuses it, but Django's model validation still calls `Bid.clean`, with `bid` left as `None`. The comparison at auctions/models.py:103, or at auctions/models.py:108 when there are no bids, then raises a `TypeError`. Such a request ends in a server error, not a refusal. The model only receives amounts that are numbers, so it does not capture this crash.
- Comment text is taken after Django's whitespace stripping. The stripping itself is not modelled.
- `Models.HighestBid`: among bids of equal amount, the database's order decides which bid comes first. The model takes the earliest, and its contract only promises some maximal bid. Bids of equal amount never occur in a valid ledger.
