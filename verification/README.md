# Energy offer ledger — a Dafny model

This project models the core of a peer-to-peer energy trading app. Sellers reserve metered
energy and open offers priced in tokens. Buyers accept an offer in part or in full. Sellers
can cancel their open offers. Every create and accept is mirrored by an on-chain call.

The model covers three pieces of the code:

- `offers.dfy` models the backend offer controller (`createoffer`, `acceptoffer`,
  `canceloffer` and the `N` coercion helper). It has two layers:
  - Each handler is a pure step function over a `Ledger`, which holds two maps:
    users to `Account{energy_balance, reserved_energy, wallet_address}` and offer ids to
    `Offer{creator_id, units, remaining_units, token_per_unit, total_tokens, status}`.
  - The class `Market` holds the same two maps as fields and runs each handler step by
    step: lookups, guards, field updates, then commit or abort. Each method is proved
    equal to its step function.

  On top of that the module proves:
  - conservation of energy across all accounts;
  - the invariant "each account's `reserved_energy` equals the sum of `remaining_units`
    over its open offers", plus well-formed offers;
  - cancelled and completed offers are terminal;
  - every rejection leaves the ledger unchanged;
  - create followed by cancel restores the accounts.
- `register.dfy` models the registration page: the ordered validation chain, the request
  body, and the mock wallet-address generator. The generator is a loop over 40 draws of
  `Math.random()`, which are passed in as a parameter.
- `dashboard.dfy` models the dashboard's chart labels (the label rule, and the loop that
  produces one label per day) and `shortenAddress`, with JavaScript `slice` semantics.
- `sums.dfy` (sums over maps) and `decimal.dfy` (printing and reading decimal numerals)
  are supporting modules.

The on-chain call is an oracle argument, `ChainOk(txHash)` or `ChainErr(error)`. The only
thing the model takes from it is whether it succeeded and, if not, its error message.
Offer ids come from `Date.now()` in the code; in the model the caller passes a fresh id,
and `CreateStep` requires that it is not already in use.

Behaviour of the code that the model keeps on purpose:

- An accept whose buyer or seller does not exist fails with a 500 TypeError. The error
  comes from reading `wallet_address` of `null`, before the chain call.
- A buyer who is also the seller gets both writes on one account. Both documents are
  saved with only their changed paths, so neither write is lost.
- The code never checks `units > 0` or `unit > 0`. These stay plain integers. Positivity
  appears only as a hypothesis of the invariant lemmas. `NegativeUnitsLeaveReservationNegative`
  shows why: a create with negative `units` passes every guard and leaves the creator's
  reservation negative.
- When the oldest chart point, `i = days - 1`, lies more than 7 days back (`days > 8`),
  it is labelled `"{days}d ago"`. `DayLabelReadsBack` states that this label reads as one
  day further back than the point is. For `days <= 8` the `i <= 7` rule comes first, and
  the oldest point reads as its own `i`, like every other label.

Where the code's own evident intent and what it does differ, the model follows what it does:

- Cancel is commented "restore seller reserved energy" (offercontroller.js line 137) and
  lowers the reservation by `remaining_units` (line 139), but credits the balance with the
  offer's full `units` (line 141) (see Findings).
- Cancel is meant to check the requester (lines 104-122), but it reads an undeclared
  variable first (lines 94-99) (see Findings).
- Accept moves no tokens: only energy changes hands, although the offer carries a price.
- A failed or throwing chain call aborts the transaction; there is no other outcome.

## Model

| member | source | states |
|---|---|---|
| Offers.N | backend/controllers/offercontroller.js:13 | a number passes through unchanged; `true` coerces to 1; a non-number never coerces to a negative value, and undefined, null, false and the empty string coerce to 0 |
| Offers.NReadsPrintedCount | backend/controllers/offercontroller.js:13 | a count stored as a decimal string coerces back to that count |
| Offers.CreateStep | backend/controllers/offercontroller.js:29-86 | create succeeds exactly when the creator exists, has `energy_balance >= units` and the chain call succeeds; with too little energy the reply is 400 "Not enough energy"; a missing creator gives 500 "Creator not found"; a failed chain call after the guards pass gives 500 with the chain's error message; every failure, including a failed chain call, leaves accounts and offers unchanged; on success the new state is the reservation plus a new open offer |
| Offers.ReserveAndOpen | backend/controllers/offercontroller.js:44-58 | the creator's balance drops by `units` and its reservation rises by `units`; the new offer is open with `remaining_units = units` and `total_tokens = units * token_per_unit`; no other account or offer changes |
| Offers.CreateConservesEnergy | backend/controllers/offercontroller.js:44-45 | create never changes the energy (balance plus reserved) of all accounts together |
| Offers.ReserveAndOpenKeepsConsistent | backend/controllers/offercontroller.js:44-58 | with `units > 0`, opening an offer keeps every reservation equal to the open units of that account's offers |
| Offers.CreateKeepsConsistent | backend/controllers/offercontroller.js:41-82 | every outcome of create with `units > 0` keeps the reservation invariant and well-formed offers |
| Offers.AcceptStep | backend/controllers/offercontroller.js:173-225 | a missing or non-open offer gives 400 "Invalid offer"; `unit > remaining_units` gives 400 "Units exceed offer"; past those guards, a missing buyer or seller gives 500 with the TypeError message of reading `wallet_address` of null, and otherwise a failed chain call gives 500 with the chain's error message; success needs an open offer, enough units, both users and a successful chain call; every failure changes nothing; on success the new state is the fill |
| Offers.Fill | backend/controllers/offercontroller.js:202-209 | the seller's `reserved_energy` drops by `unit` and the buyer's `energy_balance` rises by `unit`; `remaining_units` drops by `unit`; the offer is completed exactly when none remain, otherwise still open; nothing else changes |
| Offers.AcceptConservesEnergy | backend/controllers/offercontroller.js:202-203 | accept never changes the energy of all accounts together |
| Offers.AcceptFillsOrCompletes | backend/controllers/offercontroller.js:204-209 | accepting all remaining units completes the offer with 0 left; accepting fewer leaves it open with exactly `unit` fewer |
| Offers.FillKeepsWellFormed | backend/controllers/offercontroller.js:204-209 | a fill of `0 < unit <= remaining_units` keeps `0 <= remaining <= units`, open offers non-empty, and an offer empty exactly when it is completed |
| Offers.FillMovesReservation | backend/controllers/offercontroller.js:202-209 | each account's reservation moves by exactly the change in the filled offer's open units |
| Offers.FillKeepsConsistent | backend/controllers/offercontroller.js:202-209 | a fill of a positive `unit` keeps the reservation invariant |
| Offers.AcceptKeepsConsistent | backend/controllers/offercontroller.js:180-213 | every outcome of accept with `unit > 0` keeps the reservation invariant and well-formed offers |
| Offers.CancelRejection | backend/controllers/offercontroller.js:104-134 | cancel goes ahead exactly when the requester and offer id are present, the offer exists, the requester created it, it is open and its creator exists; otherwise the first failing guard gives the reply: 400 "Missing fields" exactly for a missing requester or id, 404 "Offer not found" exactly for an unknown offer, 403 "Only creator can cancel" exactly for a non-creator, 400 "Cannot cancel in current status" exactly for a closed offer, 404 "Creator not found" exactly for a missing creator account |
| Offers.Release | backend/controllers/offercontroller.js:137-147 | the creator's reservation becomes `max(0, reserved - remaining_units)`, the balance is credited with the refund and the offer becomes cancelled; nothing else changes |
| Offers.CancelStep | backend/controllers/offercontroller.js:104-151 | cancel succeeds exactly when no guard rejects; a rejection replies with the first failing guard's reply and changes nothing; a success releases the offer and credits `units` |
| Offers.CancelCorrected | backend/controllers/offercontroller.js:139-141 | the same guards, replies and release, but crediting `remaining_units` |
| Offers.OpenUnitsCoverOffer | backend/controllers/offercontroller.js:139 | under the invariant, an open offer's creator has at least its `remaining_units` reserved, so the `max(0, …)` floor never bites |
| Offers.ReleaseKeepsWellFormed | backend/controllers/offercontroller.js:145 | cancelling an open offer keeps offers well formed: a cancelled offer still has units left, so only completed offers have none |
| Offers.ReleaseMovesReservation | backend/controllers/offercontroller.js:139-145 | when the reservation covers the offer, each account's reservation moves by exactly the change in the offer's open units |
| Offers.ReleaseKeepsConsistent | backend/controllers/offercontroller.js:137-147 | releasing an open offer keeps the reservation invariant, whatever the refund |
| Offers.CancelKeepsConsistent | backend/controllers/offercontroller.js:104-151 | every outcome of cancel keeps the reservation invariant |
| Offers.CancelCorrectedKeepsConsistent | backend/controllers/offercontroller.js:139-141 | the corrected cancel keeps the reservation invariant |
| Offers.CancelCorrectedConservesEnergy | backend/controllers/offercontroller.js:139-141 | under the invariant, the corrected cancel conserves total energy |
| Offers.CancelCreatesFilledEnergy | backend/controllers/offercontroller.js:139-141 | under the invariant, a successful cancel as written adds `units - remaining_units` (the filled units) to total energy |
| Offers.CancelAfterPartialFillCreatesEnergy | backend/controllers/offercontroller.js:141 | a seller with 40 offered and 10 filled who cancels ends with 100 available; with the buyer's 10, the two accounts own 110 where they owned 100 |
| Offers.ConsistentReservationsNonNegative | backend/controllers/offercontroller.js:139 | under the reservation invariant every account's `reserved_energy` is non-negative |
| Offers.CreateKeepsBalancesNonNegative | backend/controllers/offercontroller.js:41-45 | with `units >= 0`, the "Not enough energy" guard keeps every available and reserved balance non-negative through create |
| Offers.NegativeUnitsLeaveReservationNegative | backend/controllers/offercontroller.js:41-45 | a create with `units = -5` on an account with nothing succeeds and leaves it 5 available and -5 reserved |
| Offers.FillKeepsBalancesNonNegative | backend/controllers/offercontroller.js:202-203 | a positive fill that the seller's reservation covers keeps all balances non-negative |
| Offers.AcceptKeepsBalancesNonNegative | backend/controllers/offercontroller.js:180-213 | under the invariant, every outcome of accept with `unit > 0` keeps all balances non-negative |
| Offers.ReleaseKeepsBalancesNonNegative | backend/controllers/offercontroller.js:139-141 | a release with a non-negative refund keeps all balances non-negative, the reservation being floored at 0 |
| Offers.CancelKeepsBalancesNonNegative | backend/controllers/offercontroller.js:104-151 | under the invariant, every outcome of cancel, as written and corrected, keeps all balances non-negative |
| Offers.ClosedOffersAreFinal | backend/controllers/offercontroller.js:125-128 | a cancelled or completed offer is rejected by accept (400 "Invalid offer") and by cancel, with nothing changed, and no create, accept or cancel alters it |
| Offers.CreateThenCancelRestoresAccounts | backend/controllers/offercontroller.js:44-45 | create followed by the creator's cancel, with no fills, restores every account exactly and leaves the offer cancelled |
| Offers.ShippedCancelAlwaysFails | backend/controllers/offercontroller.js:94-99 | the shipped handler replies 500 "Server error" and changes nothing, even where the intended checks let the creator cancel |
| Offers.Market.CreateOffer | backend/controllers/offercontroller.js:29-86 | runs `createoffer` in place: tentative writes, then rollback on a chain failure; the reply and new maps equal `CreateStep` of the old ones; total energy is unchanged; the invariant and non-negative balances are kept when `units > 0` |
| Offers.Market.AcceptOffer | backend/controllers/offercontroller.js:173-225 | runs `acceptoffer` in place with no write before the chain call; the result equals `AcceptStep`; total energy is unchanged; the invariant and non-negative balances are kept when `unit > 0` |
| Offers.Market.CancelOffer | backend/controllers/offercontroller.js:104-151 | runs the intended `canceloffer` checks in place; the result equals `CancelStep`; the invariant and non-negative balances are kept |
| Register.FreshFormIsRejected | frontend/src/pages/register.js:5-35 | the form as first shown (role "buyer", all else empty) is rejected with "Please fill all required fields.", and still is after a wallet address is generated |
| Register.Submit | frontend/src/pages/register.js:32-59 | an empty name, email or password gives "Please fill all required fields."; otherwise a mismatch gives "Passwords do not match."; otherwise a password under 6 characters gives "Password must be at least 6 characters."; a request is built exactly when all checks pass, and it holds name, email, password, role and `wallet_address` = `walletAddress`, without `confirmPassword` |
| Register.HexDigitOf | frontend/src/pages/register.js:22 | a draw in [0, 1) picks a character of "0123456789abcdef" |
| Register.GenerateWalletAddress | frontend/src/pages/register.js:18-25 | the address is "0x" followed by 40 hex characters (42 in all), the i-th taken from the i-th draw; only `walletAddress` of the form changes |
| Register.GeneratedAddressIsSent | frontend/src/pages/register.js:24 | setting the wallet address, to a generated one or any other, never changes whether the form passes, and a passing form sends that address |
| Dashboard.DayLabelReadsBack | frontend/src/pages/dashboard.js:78-91 | a label is shown exactly when `i <= 7`, `i == days - 1` or `i % 5 == 0`; "Today" is `i = 0` and "Yesterday" is `i = 1`; `"{i}d ago"` and `"{i}d"` read back as `i`; the oldest point beyond 7 days reads as `days` |
| Dashboard.ShownLabelsDistinct | frontend/src/pages/dashboard.js:78-91 | no two points of one chart carry the same non-blank label |
| Dashboard.ChartLabels | frontend/src/pages/dashboard.js:62-97 | there are exactly `days` points (none when `days <= 0`); point k carries the label of `i = days - 1 - k`, so `i` runs down to 0 and the last point is "Today" |
| Dashboard.ShortenAddress | frontend/src/pages/dashboard.js:131-134 | "N/A" exactly for a missing or empty address; otherwise the first `min(6, len)` characters, "...", then the last `min(4, len)`; an address of 10 or more characters gives 13 characters |

## Left out

- Chain calls. Contract encoding, signer and account lookup, nonce, gas price, signing and
  submission (backend/blockchain/EnergyContract.js) are network I/O. Each call is an
  oracle argument, and its transaction hash is unused.
- Transactions and concurrency. MongoDB sessions, transactions and concurrency between
  requests are not modelled. Each handler is one atomic step whose writes land only on its
  success path. `Market.CreateOffer` shows the rollback explicitly.
- Real-time notifications. The Socket.IO fan-out after a cancel (lines 154-160) and the
  server wiring are left out.
- Timestamps and ids. `created_at`, `completed_at` and `transformer_id` are not modelled.
  Neither are the `Date.now()` offer id and the unused `generateOfferId`; the fresh id is
  a parameter instead.
- `getTokenBalance` is left out: it uses undefined globals.
- `getAllOffers` is left out: it is a plain read of every offer.
- Routing files and the React app shells are left out.
- Token transfers. The code moves no tokens on accept, so the model moves none.
- Request quantities are numbers. `units`, `unit` and `token_per_unit` come from the
  JSON request body (offercontroller.js lines 35 and 180), which may carry them as
  strings; the model takes them as numbers only. With a string, `+=` at line 45
  (`reserved_energy`) and line 203 (`energy_balance`) concatenates instead of adding
  (100 and "5" give "1005", saved as 1005), while `<`, `>` and `-=` convert to numbers,
  so the two sides of the ledger stop matching. CreateConservesEnergy,
  AcceptConservesEnergy and the invariant lemmas hold for numeric request bodies only.
- Numbers. JavaScript numbers are doubles; the model uses unbounded integers, so there is
  no rounding above 2^53, no fractional units and no NaN.
- Offers.N: strings other than decimal numerals (signs, spaces, fractions, exponents, hex)
  are not represented, so their coercion is not modelled.
- Missing ids. A missing requester or offer id is the empty string, which is also falsy
  in JavaScript.
- Offers.CreateStep: a chain error whose message is "Creator not found" cannot be told
  apart from a missing creator, so that message is stated in one direction only.
- Dashboard.ShortenAddress: JavaScript `slice` counts UTF-16 code units; the model counts
  characters, so addresses with characters outside the Basic Multilingual Plane are not
  modelled (hexadecimal addresses are unaffected).
- Register.Submit: `password.length` counts UTF-16 code units in JavaScript; the model
  counts characters, so passwords with characters outside the Basic Multilingual Plane
  are not modelled.
- Dashboard chart values are left out: weekday multipliers, trends, `Math.random`
  variation, totals, averages and `toFixed` are floating point driven by `Date` and
  `Math.random`. `ChartLabels` returns only the labels.
- JSX rendering and the `fetch` calls of both pages are left out.

## Findings

| source | as written | input that shows it | evidently intended | confidence | as-written member | corrected member |
|---|---|---|---|---|---|---|
| backend/controllers/offercontroller.js:141 | cancel credits `energy_balance` with `offer.units`, though only `remaining_units` is still reserved | seller has 60 available and 30 reserved for an offer of 40 with 10 already bought; the seller cancels and ends with 100 available, so the two accounts own 110 where they owned 100 | credit `remaining_units`, which conserves energy | not executed; high | Offers.CancelAfterPartialFillCreatesEnergy | Offers.CancelCorrectedConservesEnergy |
| backend/controllers/offercontroller.js:94-99 | the handler destructures `user` but tests the undeclared `user_id`, so every request throws and gets 500 "Server error" | the creator cancelling their own open offer | check the requester taken from the request body, as lines 104-151 do | not executed; high | Offers.ShippedCancelAlwaysFails | Offers.CancelStep |

`Market.CancelOffer` runs the refund as written, because the class models the code.
`CancelCorrected` is the corrected definition: it is proved to keep the reservation
invariant and to conserve energy.
