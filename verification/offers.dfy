/** The offer lifecycle over the energy ledger (backend/controllers/offercontroller.js).

    Each handler runs inside one database transaction: it reads the accounts and
    the offer, checks its guards, writes the new balances and offer, and either
    commits or aborts. The step functions below give each handler's effect on a
    `Ledger` as a value; the class `Market` holds the two collections as fields and
    runs the handlers step by step, proved equal to the step functions. */
module Offers {
  import opened Basics
  import opened Sums
  import opened Decimal

  type UserId = string
  type OfferId = string

  /** A user document, reduced to what the offer handlers read and write. */
  datatype Account = Account(energy_balance: int, reserved_energy: int, wallet_address: string)

  datatype Status = Open | Cancelled | Completed

  /** An offer document; `created_at`, `completed_at` and `transformer_id` are not modelled. */
  datatype Offer = Offer(
    creator_id: UserId,
    units: int,
    remaining_units: int,
    token_per_unit: int,
    total_tokens: int,
    status: Status)

  /** What the on-chain call reports: a transaction hash, or an error message. */
  datatype ChainResult = ChainOk(txHash: string) | ChainErr(error: string)

  /** The HTTP reply: success with the offer, or a status code with a message. */
  datatype Response = Done(offer: Offer) | Fail(code: int, msg: string)

  /** Both collections of the database. */
  datatype Ledger = Ledger(accounts: map<UserId, Account>, offers: map<OfferId, Offer>)

  /** A handler's reply together with the ledger after the transaction ends. */
  datatype Step = Step(response: Response, after: Ledger)

  /** The message of the TypeError raised by reading `wallet_address` of a user that was not found. */
  const NullWalletMessage := "Cannot read properties of null (reading 'wallet_address')"

  /* ---------- The `N` coercion helper ---------- */

  /** A decimal numeral string: the only strings this model lets `N` see. */
  type Numeral = s: string | forall i :: 0 <= i < |s| ==> IsDigit(s[i])

  /** The request and document values `N` is applied to. */
  datatype JsValue = JNumber(n: int) | JString(digits: Numeral) | JBool(b: bool) | JUndefined | JNull

  /** `N(v)`: numbers pass through; anything else is `Number(v || 0)`, so a falsy
      value (undefined, null, false, the empty string) becomes 0. */
  function N(v: JsValue): (r: int)
    ensures v.JNumber? ==> r == v.n
    ensures !v.JNumber? ==> r >= 0
    ensures v.JUndefined? || v.JNull? || v == JBool(false) || v == JString("") ==> r == 0
    ensures v == JBool(true) ==> r == 1
  {
    match v
    case JNumber(n) => n
    case JString(s) => if s == "" then 0 else DigitsValue(s)
    case JBool(b) => if b then 1 else 0
    case JUndefined => 0
    case JNull => 0
  }

  /** A count stored as a string is read back as the count it prints. */
  lemma NReadsPrintedCount(n: nat)
    ensures N(JString(NatToString(n))) == n
  {
    DigitsValueOfNatToString(n);
  }

  /* ---------- Invariants of the ledger ---------- */

  /** Energy an account owns: available plus reserved. */
  function Energy(a: Account): int
  {
    a.energy_balance + a.reserved_energy
  }

  /** Energy owned by all accounts together. */
  ghost function TotalEnergy(accounts: map<UserId, Account>): int
  {
    Total(accounts, Energy)
  }

  /** How much of an offer stays reserved on behalf of `uid`. */
  function OpenUnitsOf(uid: UserId): Offer -> int
  {
    (o: Offer) => if o.creator_id == uid && o.status == Open then o.remaining_units else 0
  }

  /** The sum of `remaining_units` over the open offers created by `uid`. */
  ghost function OpenUnits(offers: map<OfferId, Offer>, uid: UserId): int
  {
    Total(offers, OpenUnitsOf(uid))
  }

  /** Offer documents that are well formed: nothing is filled beyond what was offered,
      an open offer has units left, an offer has none exactly when it is completed, and
      its seller exists. */
  ghost predicate WellFormedOffers(l: Ledger)
  {
    forall id :: id in l.offers ==>
      var o := l.offers[id];
      && 0 <= o.remaining_units <= o.units
      && (o.status == Open ==> o.remaining_units > 0)
      && (o.status == Completed ==> o.remaining_units == 0)
      && (o.remaining_units == 0 ==> o.status == Completed)
      && o.creator_id in l.accounts
  }

  /** Every account's reservation is exactly what its open offers still hold. */
  ghost predicate ReservationsMatch(l: Ledger)
  {
    forall uid :: uid in l.accounts ==> l.accounts[uid].reserved_energy == OpenUnits(l.offers, uid)
  }

  ghost predicate Consistent(l: Ledger)
  {
    WellFormedOffers(l) && ReservationsMatch(l)
  }

  /** No account has a negative available or reserved balance. */
  predicate BalancesNonNegative(accounts: map<UserId, Account>)
  {
    forall uid :: uid in accounts ==> accounts[uid].energy_balance >= 0 && accounts[uid].reserved_energy >= 0
  }

  /** Offers that a step leaves as they were: every offer that is not `id`. */
  ghost predicate OtherOffersKept(l: Ledger, l': Ledger, id: OfferId)
  {
    && l'.offers.Keys == l.offers.Keys + {id}
    && forall j :: j in l.offers && j != id ==> l'.offers[j] == l.offers[j]
  }

  /** Accounts that a step leaves as they were: every account outside `ids`. */
  ghost predicate OtherAccountsKept(l: Ledger, l': Ledger, ids: set<UserId>)
  {
    && l'.accounts.Keys == l.accounts.Keys
    && forall u :: u in l.accounts && u !in ids ==> l'.accounts[u] == l.accounts[u]
  }

  /* ---------- createoffer ---------- */

  /** The writes of a successful `createoffer`: the creator's energy moves from
      available to reserved and a new open offer is stored under `newId`. */
  function ReserveAndOpen(l: Ledger, creatorId: UserId, units: int, tokenPerUnit: int,
                          newId: OfferId): (l': Ledger)
    requires creatorId in l.accounts && newId !in l.offers
    ensures OtherAccountsKept(l, l', {creatorId}) && OtherOffersKept(l, l', newId)
    ensures
      var (c, c') := (l.accounts[creatorId], l'.accounts[creatorId]);
      && c'.energy_balance == c.energy_balance - units
      && c'.reserved_energy == c.reserved_energy + units
      && c'.wallet_address == c.wallet_address
    ensures
      var o := l'.offers[newId];
      && o.creator_id == creatorId && o.status == Open
      && o.units == o.remaining_units == units
      && o.token_per_unit == tokenPerUnit && o.total_tokens == units * tokenPerUnit
  {
    var c := l.accounts[creatorId];
    var c' := c.(energy_balance := c.energy_balance - units,
                 reserved_energy := c.reserved_energy + units);
    var o := Offer(creatorId, units, units, tokenPerUnit, units * tokenPerUnit, Open);
    Ledger(l.accounts[creatorId := c'], l.offers[newId := o])
  }

  /** `createoffer`: reserve `units` of the creator's energy and open an offer under the
      fresh id `newId`; the chain call's result decides between commit and abort. */
  function CreateStep(l: Ledger, creatorId: UserId, units: int, tokenPerUnit: int,
                      newId: OfferId, chain: ChainResult): (s: Step)
    requires newId !in l.offers
    ensures s.response.Done? <==>
      creatorId in l.accounts && l.accounts[creatorId].energy_balance >= units && chain.ChainOk?
    ensures s.response == Fail(400, "Not enough energy") <==>
      creatorId in l.accounts && l.accounts[creatorId].energy_balance < units
    ensures creatorId !in l.accounts ==> s.response == Fail(500, "Creator not found")
    ensures creatorId in l.accounts && l.accounts[creatorId].energy_balance >= units && chain.ChainErr? ==>
      s.response == Fail(500, chain.error)
    ensures s.response.Fail? ==> s.after == l
    ensures s.response.Done? ==>
      && s.after == ReserveAndOpen(l, creatorId, units, tokenPerUnit, newId)
      && s.response.offer == s.after.offers[newId]
  {
    if creatorId !in l.accounts then Step(Fail(500, "Creator not found"), l)
    else if l.accounts[creatorId].energy_balance < units then Step(Fail(400, "Not enough energy"), l)
    else if chain.ChainErr? then Step(Fail(500, chain.error), l)
    else
      var l' := ReserveAndOpen(l, creatorId, units, tokenPerUnit, newId);
      Step(Done(l'.offers[newId]), l')
  }

  /* ---------- acceptoffer ---------- */

  /** The writes of a successful `acceptoffer`: `unit` leaves the seller's reservation
      and lands on the buyer's balance, and the offer loses `unit` remaining units,
      completing when none are left. With the buyer as seller, both writes land on
      the one account. */
  function Fill(l: Ledger, buyerId: UserId, offerId: OfferId, unit: int): (l': Ledger)
    requires offerId in l.offers && l.offers[offerId].creator_id in l.accounts && buyerId in l.accounts
    ensures OtherOffersKept(l, l', offerId) && OtherAccountsKept(l, l', {l.offers[offerId].creator_id, buyerId})
    ensures
      var (o, o') := (l.offers[offerId], l'.offers[offerId]);
      o' == o.(remaining_units := o.remaining_units - unit, status := o'.status)
      && (o'.status == Completed <==> o'.remaining_units == 0)
      && (o'.status == Open <==> o'.remaining_units != 0)
    ensures
      var sellerId := l.offers[offerId].creator_id;
      var (seller, seller', buyer, buyer') :=
        (l.accounts[sellerId], l'.accounts[sellerId], l.accounts[buyerId], l'.accounts[buyerId]);
      && seller'.reserved_energy == seller.reserved_energy - unit
      && buyer'.energy_balance == buyer.energy_balance + unit
      && (sellerId != buyerId ==>
            seller'.energy_balance == seller.energy_balance && buyer'.reserved_energy == buyer.reserved_energy)
      && seller'.wallet_address == seller.wallet_address
      && buyer'.wallet_address == buyer.wallet_address
  {
    var o := l.offers[offerId];
    var seller := l.accounts[o.creator_id];
    var accounts1 := l.accounts[o.creator_id := seller.(reserved_energy := seller.reserved_energy - unit)];
    var buyer := accounts1[buyerId];
    var accounts2 := accounts1[buyerId := buyer.(energy_balance := buyer.energy_balance + unit)];
    var left := o.remaining_units - unit;
    var o' := o.(remaining_units := left, status := if left == 0 then Completed else Open);
    Ledger(accounts2, l.offers[offerId := o'])
  }

  /** `acceptoffer`: buyer `buyerId` takes `unit` units of offer `offerId`. The chain call
      comes before any write, and its failure aborts. */
  function AcceptStep(l: Ledger, buyerId: UserId, offerId: OfferId, unit: int,
                      chain: ChainResult): (s: Step)
    ensures s.response == Fail(400, "Invalid offer") <==>
      offerId !in l.offers || l.offers[offerId].status != Open
    ensures s.response == Fail(400, "Units exceed offer") <==>
      offerId in l.offers && l.offers[offerId].status == Open && unit > l.offers[offerId].remaining_units
    ensures s.response.Done? <==>
      && offerId in l.offers && l.offers[offerId].status == Open
      && unit <= l.offers[offerId].remaining_units
      && l.offers[offerId].creator_id in l.accounts && buyerId in l.accounts
      && chain.ChainOk?
    ensures offerId in l.offers && l.offers[offerId].status == Open && unit <= l.offers[offerId].remaining_units ==>
      && ((buyerId !in l.accounts || l.offers[offerId].creator_id !in l.accounts) ==>
            s.response == Fail(500, NullWalletMessage))
      && (buyerId in l.accounts && l.offers[offerId].creator_id in l.accounts && chain.ChainErr? ==>
            s.response == Fail(500, chain.error))
    ensures s.response.Fail? ==> s.after == l
    ensures s.response.Done? ==>
      && s.after == Fill(l, buyerId, offerId, unit)
      && s.response.offer == s.after.offers[offerId]
  {
    if offerId !in l.offers || l.offers[offerId].status != Open then Step(Fail(400, "Invalid offer"), l)
    else if unit > l.offers[offerId].remaining_units then Step(Fail(400, "Units exceed offer"), l)
    else if buyerId !in l.accounts || l.offers[offerId].creator_id !in l.accounts then
      Step(Fail(500, NullWalletMessage), l)
    else if chain.ChainErr? then Step(Fail(500, chain.error), l)
    else
      var l' := Fill(l, buyerId, offerId, unit);
      Step(Done(l'.offers[offerId]), l')
  }

  /* ---------- canceloffer ---------- */

  /** The guards of `canceloffer`, in order: the failure reply, or None when the
      cancellation goes ahead. A missing requester or offer id is the empty string. */
  function CancelRejection(l: Ledger, requester: UserId, offerId: OfferId): (r: Option<Response>)
    ensures r.None? <==>
      && requester != "" && offerId != "" && offerId in l.offers
      && l.offers[offerId].creator_id == requester && l.offers[offerId].status == Open
      && requester in l.accounts
    ensures r.Some? ==> r.value.Fail?
    ensures r == Some(Fail(400, "Missing fields")) <==> requester == "" || offerId == ""
    ensures r == Some(Fail(404, "Offer not found")) <==>
      requester != "" && offerId != "" && offerId !in l.offers
    ensures r == Some(Fail(403, "Only creator can cancel")) <==>
      requester != "" && offerId != "" && offerId in l.offers && l.offers[offerId].creator_id != requester
    ensures r == Some(Fail(400, "Cannot cancel in current status")) <==>
      && requester != "" && offerId != "" && offerId in l.offers
      && l.offers[offerId].creator_id == requester && l.offers[offerId].status != Open
    ensures r == Some(Fail(404, "Creator not found")) <==>
      && requester != "" && offerId != "" && offerId in l.offers
      && l.offers[offerId].creator_id == requester && l.offers[offerId].status == Open
      && requester !in l.accounts
  {
    if requester == "" || offerId == "" then Some(Fail(400, "Missing fields"))
    else if offerId !in l.offers then Some(Fail(404, "Offer not found"))
    else
      var o := l.offers[offerId];
      if o.creator_id != requester then Some(Fail(403, "Only creator can cancel"))
      else if o.status != Open then Some(Fail(400, "Cannot cancel in current status"))
      else if o.creator_id !in l.accounts then Some(Fail(404, "Creator not found"))
      else None
  }

  /** The writes of a successful cancellation: the creator's reservation drops by the
      offer's `remaining_units`, floored at 0, the creator's balance is credited with
      `refund`, and the offer is marked cancelled. The handler wraps each operand in `N`;
      the model's balances and unit counts are numbers already, which `N` passes through
      unchanged, so it does not appear here. */
  function Release(l: Ledger, offerId: OfferId, refund: int): (l': Ledger)
    requires offerId in l.offers && l.offers[offerId].creator_id in l.accounts
    ensures OtherOffersKept(l, l', offerId) && OtherAccountsKept(l, l', {l.offers[offerId].creator_id})
    ensures
      var (o, creatorId) := (l.offers[offerId], l.offers[offerId].creator_id);
      var (c, c') := (l.accounts[creatorId], l'.accounts[creatorId]);
      && l'.offers[offerId] == o.(status := Cancelled)
      && c'.reserved_energy == Max(0, c.reserved_energy - o.remaining_units)
      && c'.energy_balance == c.energy_balance + refund
      && c'.wallet_address == c.wallet_address
  {
    var o := l.offers[offerId];
    var c := l.accounts[o.creator_id];
    var c' := c.(reserved_energy := Max(0, c.reserved_energy - o.remaining_units),
                 energy_balance := c.energy_balance + refund);
    Ledger(l.accounts[o.creator_id := c'], l.offers[offerId := o.(status := Cancelled)])
  }

  /** `canceloffer` with the requester as a parameter, as lines 104-151 intend; the
      creator's balance is credited with `units`, the offer's original size. */
  function CancelStep(l: Ledger, requester: UserId, offerId: OfferId): (s: Step)
    ensures s.response.Done? <==> CancelRejection(l, requester, offerId).None?
    ensures s.response.Fail? ==> CancelRejection(l, requester, offerId) == Some(s.response)
    ensures s.response.Fail? ==> s.after == l
    ensures s.response.Done? ==>
      && s.after == Release(l, offerId, l.offers[offerId].units)
      && s.response.offer == s.after.offers[offerId]
  {
    match CancelRejection(l, requester, offerId)
    case Some(failure) => Step(failure, l)
    case None =>
      var l' := Release(l, offerId, l.offers[offerId].units);
      Step(Done(l'.offers[offerId]), l')
  }

  /** Cancellation as the shipped handler runs it: it destructures `user` but reads the
      undeclared `user_id`, so with `user` absent the log line throws a TypeError and
      otherwise the guard throws a ReferenceError; both end in the catch block's 500
      "Server error" after aborting the transaction. */
  function CancelAsShipped(l: Ledger, user: Option<UserId>, offerId: OfferId): Step
  {
    Step(Fail(500, "Server error"), l)
  }

  /** Corrected cancellation: the creator gets back what is still reserved,
      `remaining_units`, rather than the offer's original `units`. */
  function CancelCorrected(l: Ledger, requester: UserId, offerId: OfferId): (s: Step)
    ensures s.response.Done? <==> CancelRejection(l, requester, offerId).None?
    ensures s.response.Fail? ==> CancelRejection(l, requester, offerId) == Some(s.response)
    ensures s.response.Fail? ==> s.after == l
    ensures s.response.Done? ==>
      && s.after == Release(l, offerId, l.offers[offerId].remaining_units)
      && s.response.offer == s.after.offers[offerId]
  {
    match CancelRejection(l, requester, offerId)
    case Some(failure) => Step(failure, l)
    case None =>
      var l' := Release(l, offerId, l.offers[offerId].remaining_units);
      Step(Done(l'.offers[offerId]), l')
  }

  /* ---------- Conservation of energy ---------- */

  /** Total energy after one account is replaced by another owning as much. */
  lemma TotalEnergyUpdate(accounts: map<UserId, Account>, accounts': map<UserId, Account>, id: UserId, delta: int)
    requires id in accounts && id in accounts' && accounts' == accounts[id := accounts'[id]]
    requires Energy(accounts'[id]) == Energy(accounts[id]) + delta
    ensures TotalEnergy(accounts') == TotalEnergy(accounts) + delta
  {
    TotalUpdate(accounts, id, accounts'[id], Energy);
  }

  /** Creating an offer only moves energy from available to reserved. */
  lemma CreateConservesEnergy(l: Ledger, creatorId: UserId, units: int, tokenPerUnit: int,
                              newId: OfferId, chain: ChainResult)
    requires newId !in l.offers
    ensures TotalEnergy(CreateStep(l, creatorId, units, tokenPerUnit, newId, chain).after.accounts)
         == TotalEnergy(l.accounts)
  {
    if CreateStep(l, creatorId, units, tokenPerUnit, newId, chain).response.Done? {
      var l' := ReserveAndOpen(l, creatorId, units, tokenPerUnit, newId);
      assert l'.accounts == l.accounts[creatorId := l'.accounts[creatorId]];
      TotalEnergyUpdate(l.accounts, l'.accounts, creatorId, 0);
    }
  }

  /** Accepting moves `unit` from the seller's reservation to the buyer's balance:
      the energy of all accounts together is unchanged. */
  lemma AcceptConservesEnergy(l: Ledger, buyerId: UserId, offerId: OfferId, unit: int, chain: ChainResult)
    ensures TotalEnergy(AcceptStep(l, buyerId, offerId, unit, chain).after.accounts) == TotalEnergy(l.accounts)
  {
    if AcceptStep(l, buyerId, offerId, unit, chain).response.Done? {
      var sellerId := l.offers[offerId].creator_id;
      var seller := l.accounts[sellerId];
      var accounts1 := l.accounts[sellerId := seller.(reserved_energy := seller.reserved_energy - unit)];
      var buyer := accounts1[buyerId];
      var accounts2 := accounts1[buyerId := buyer.(energy_balance := buyer.energy_balance + unit)];
      assert accounts2 == Fill(l, buyerId, offerId, unit).accounts;
      TotalEnergyUpdate(l.accounts, accounts1, sellerId, -unit);
      TotalEnergyUpdate(accounts1, accounts2, buyerId, unit);
    }
  }

  /** With consistent reservations, the corrected cancellation conserves energy. */
  lemma CancelCorrectedConservesEnergy(l: Ledger, requester: UserId, offerId: OfferId)
    requires Consistent(l)
    ensures TotalEnergy(CancelCorrected(l, requester, offerId).after.accounts) == TotalEnergy(l.accounts)
  {
    if CancelRejection(l, requester, offerId).None? {
      OpenUnitsCoverOffer(l, offerId);
      var l' := Release(l, offerId, l.offers[offerId].remaining_units);
      assert l'.accounts == l.accounts[requester := l'.accounts[requester]];
      TotalEnergyUpdate(l.accounts, l'.accounts, requester, 0);
    }
  }

  /** As written, cancellation adds the offer's filled units to the total: energy already
      delivered to buyers is credited to the seller a second time. */
  lemma CancelCreatesFilledEnergy(l: Ledger, requester: UserId, offerId: OfferId)
    requires Consistent(l)
    requires CancelStep(l, requester, offerId).response.Done?
    ensures TotalEnergy(CancelStep(l, requester, offerId).after.accounts)
         == TotalEnergy(l.accounts) + (l.offers[offerId].units - l.offers[offerId].remaining_units)
  {
    var o := l.offers[offerId];
    OpenUnitsCoverOffer(l, offerId);
    var l' := Release(l, offerId, o.units);
    assert l'.accounts == l.accounts[requester := l'.accounts[requester]];
    TotalEnergyUpdate(l.accounts, l'.accounts, requester, o.units - o.remaining_units);
  }

  /** A concrete case: a seller who offered 40 of 100 units, 10 of which a buyer has
      taken, cancels; the two accounts then own 110 units where they owned 100. */
  lemma CancelAfterPartialFillCreatesEnergy()
    ensures
      var l := Ledger(map["s" := Account(60, 30, "0xs"), "b" := Account(10, 0, "0xb")],
                      map["OFF1" := Offer("s", 40, 30, 3, 120, Open)]);
      var s := CancelStep(l, "s", "OFF1");
      && s.response.Done?
      && s.after.accounts["s"] == Account(100, 0, "0xs")
      && s.after.accounts["b"] == Account(10, 0, "0xb")
      && Energy(s.after.accounts["s"]) + Energy(s.after.accounts["b"])
         == Energy(l.accounts["s"]) + Energy(l.accounts["b"]) + 10
  {
    var l := Ledger(map["s" := Account(60, 30, "0xs"), "b" := Account(10, 0, "0xb")],
                    map["OFF1" := Offer("s", 40, 30, 3, 120, Open)]);
    assert "s" != "b";
    assert CancelRejection(l, "s", "OFF1").None?;
  }

  /* ---------- Reservations match open offers ---------- */

  /** Under the invariant, an open offer's remaining units are covered by its
      creator's reservation. */
  lemma OpenUnitsCoverOffer(l: Ledger, offerId: OfferId)
    requires Consistent(l)
    requires offerId in l.offers
    ensures var o := l.offers[offerId];
      o.status == Open ==> l.accounts[o.creator_id].reserved_energy >= o.remaining_units
  {
    var o := l.offers[offerId];
    var f := OpenUnitsOf(o.creator_id);
    forall j | j in l.offers ensures f(l.offers[j]) >= 0 {
    }
    TotalAtLeastEntry(l.offers, offerId, f);
  }

  /** Replacing offer `id` by `o'` changes each user's open units by the difference
      of that one offer's contribution. */
  lemma OpenUnitsUpdate(offers: map<OfferId, Offer>, id: OfferId, o': Offer, uid: UserId)
    ensures OpenUnits(offers[id := o'], uid)
         == OpenUnits(offers, uid) - (if id in offers then OpenUnitsOf(uid)(offers[id]) else 0)
            + OpenUnitsOf(uid)(o')
  {
    TotalUpdate(offers, id, o', OpenUnitsOf(uid));
  }

  /** When one offer is replaced and each account's reservation moves by exactly the
      change in that offer's contribution, reservations keep matching open offers. */
  lemma ReservationsFollowOffer(l: Ledger, l': Ledger, id: OfferId, o': Offer)
    requires ReservationsMatch(l)
    requires l'.offers == l.offers[id := o']
    requires l'.accounts.Keys == l.accounts.Keys
    requires forall uid :: uid in l.accounts ==>
      l'.accounts[uid].reserved_energy == l.accounts[uid].reserved_energy
        - (if id in l.offers then OpenUnitsOf(uid)(l.offers[id]) else 0) + OpenUnitsOf(uid)(o')
    ensures ReservationsMatch(l')
  {
    forall uid | uid in l'.accounts
      ensures l'.accounts[uid].reserved_energy == OpenUnits(l'.offers, uid)
    {
      OpenUnitsUpdate(l.offers, id, o', uid);
    }
  }

  lemma ReserveAndOpenKeepsConsistent(l: Ledger, creatorId: UserId, units: int, tokenPerUnit: int,
                                      newId: OfferId)
    requires creatorId in l.accounts && newId !in l.offers
    requires Consistent(l)
    requires units > 0
    ensures Consistent(ReserveAndOpen(l, creatorId, units, tokenPerUnit, newId))
  {
    var l' := ReserveAndOpen(l, creatorId, units, tokenPerUnit, newId);
    assert l'.offers == l.offers[newId := l'.offers[newId]];
    ReservationsFollowOffer(l, l', newId, l'.offers[newId]);
  }

  lemma FillKeepsWellFormed(l: Ledger, buyerId: UserId, offerId: OfferId, unit: int)
    requires offerId in l.offers && l.offers[offerId].creator_id in l.accounts && buyerId in l.accounts
    requires WellFormedOffers(l)
    requires l.offers[offerId].status == Open && 0 < unit <= l.offers[offerId].remaining_units
    ensures WellFormedOffers(Fill(l, buyerId, offerId, unit))
  {
  }

  /** A fill moves the seller's reservation by exactly the change in the offer's open units. */
  lemma FillMovesReservation(l: Ledger, buyerId: UserId, offerId: OfferId, unit: int)
    requires offerId in l.offers && l.offers[offerId].creator_id in l.accounts && buyerId in l.accounts
    requires l.offers[offerId].status == Open && unit <= l.offers[offerId].remaining_units
    ensures var (l', o) := (Fill(l, buyerId, offerId, unit), l.offers[offerId]);
      forall uid :: uid in l.accounts ==>
        l'.accounts[uid].reserved_energy
          == l.accounts[uid].reserved_energy - OpenUnitsOf(uid)(o) + OpenUnitsOf(uid)(l'.offers[offerId])
  {
  }

  lemma FillKeepsConsistent(l: Ledger, buyerId: UserId, offerId: OfferId, unit: int)
    requires offerId in l.offers && l.offers[offerId].creator_id in l.accounts && buyerId in l.accounts
    requires Consistent(l)
    requires l.offers[offerId].status == Open && 0 < unit <= l.offers[offerId].remaining_units
    ensures Consistent(Fill(l, buyerId, offerId, unit))
  {
    var l' := Fill(l, buyerId, offerId, unit);
    FillKeepsWellFormed(l, buyerId, offerId, unit);
    FillMovesReservation(l, buyerId, offerId, unit);
    assert l'.offers == l.offers[offerId := l'.offers[offerId]];
    ReservationsFollowOffer(l, l', offerId, l'.offers[offerId]);
  }

  lemma ReleaseKeepsWellFormed(l: Ledger, offerId: OfferId, refund: int)
    requires offerId in l.offers && l.offers[offerId].creator_id in l.accounts
    requires WellFormedOffers(l)
    requires l.offers[offerId].status == Open
    ensures WellFormedOffers(Release(l, offerId, refund))
  {
  }

  /** A cancellation moves the creator's reservation by exactly the offer's open units,
      provided the reservation covers them. */
  lemma ReleaseMovesReservation(l: Ledger, offerId: OfferId, refund: int)
    requires offerId in l.offers && l.offers[offerId].creator_id in l.accounts
    requires l.offers[offerId].status == Open
    requires l.accounts[l.offers[offerId].creator_id].reserved_energy >= l.offers[offerId].remaining_units
    ensures var (l', o) := (Release(l, offerId, refund), l.offers[offerId]);
      forall uid :: uid in l.accounts ==>
        l'.accounts[uid].reserved_energy
          == l.accounts[uid].reserved_energy - OpenUnitsOf(uid)(o) + OpenUnitsOf(uid)(l'.offers[offerId])
  {
  }

  lemma ReleaseKeepsConsistent(l: Ledger, offerId: OfferId, refund: int)
    requires offerId in l.offers && l.offers[offerId].creator_id in l.accounts
    requires Consistent(l)
    requires l.offers[offerId].status == Open
    ensures Consistent(Release(l, offerId, refund))
  {
    var l' := Release(l, offerId, refund);
    ReleaseKeepsWellFormed(l, offerId, refund);
    OpenUnitsCoverOffer(l, offerId);
    ReleaseMovesReservation(l, offerId, refund);
    assert l'.offers == l.offers[offerId := l'.offers[offerId]];
    ReservationsFollowOffer(l, l', offerId, l'.offers[offerId]);
  }

  lemma CreateKeepsConsistent(l: Ledger, creatorId: UserId, units: int, tokenPerUnit: int,
                              newId: OfferId, chain: ChainResult)
    requires newId !in l.offers
    requires Consistent(l)
    requires units > 0
    ensures Consistent(CreateStep(l, creatorId, units, tokenPerUnit, newId, chain).after)
  {
    if CreateStep(l, creatorId, units, tokenPerUnit, newId, chain).response.Done? {
      ReserveAndOpenKeepsConsistent(l, creatorId, units, tokenPerUnit, newId);
    }
  }

  lemma AcceptKeepsConsistent(l: Ledger, buyerId: UserId, offerId: OfferId, unit: int, chain: ChainResult)
    requires Consistent(l)
    requires unit > 0
    ensures Consistent(AcceptStep(l, buyerId, offerId, unit, chain).after)
  {
    if AcceptStep(l, buyerId, offerId, unit, chain).response.Done? {
      FillKeepsConsistent(l, buyerId, offerId, unit);
    }
  }

  lemma CancelKeepsConsistent(l: Ledger, requester: UserId, offerId: OfferId)
    requires Consistent(l)
    ensures Consistent(CancelStep(l, requester, offerId).after)
  {
    if CancelRejection(l, requester, offerId).None? {
      ReleaseKeepsConsistent(l, offerId, l.offers[offerId].units);
    }
  }

  lemma CancelCorrectedKeepsConsistent(l: Ledger, requester: UserId, offerId: OfferId)
    requires Consistent(l)
    ensures Consistent(CancelCorrected(l, requester, offerId).after)
  {
    if CancelRejection(l, requester, offerId).None? {
      ReleaseKeepsConsistent(l, offerId, l.offers[offerId].remaining_units);
    }
  }

  /* ---------- Balances stay non-negative ---------- */

  /** Under the invariant no reservation is negative: it sums open units, none negative. */
  lemma ConsistentReservationsNonNegative(l: Ledger)
    requires Consistent(l)
    ensures forall uid :: uid in l.accounts ==> l.accounts[uid].reserved_energy >= 0
  {
    forall uid | uid in l.accounts
      ensures l.accounts[uid].reserved_energy >= 0
    {
      var f := OpenUnitsOf(uid);
      forall j | j in l.offers ensures f(l.offers[j]) >= 0 {
      }
      SumOverNonNegative(l.offers, l.offers.Keys, f);
    }
  }

  /** The "Not enough energy" guard keeps the available balance from going negative;
      a reservation grows by `units`, so it stays non-negative for `units >= 0`. */
  lemma CreateKeepsBalancesNonNegative(l: Ledger, creatorId: UserId, units: int, tokenPerUnit: int,
                                       newId: OfferId, chain: ChainResult)
    requires newId !in l.offers
    requires BalancesNonNegative(l.accounts)
    requires units >= 0
    ensures BalancesNonNegative(CreateStep(l, creatorId, units, tokenPerUnit, newId, chain).after.accounts)
  {
  }

  /** No guard of `createoffer` rejects a negative `units`: it moves energy out of the
      reservation into the available balance and leaves the reservation negative. */
  lemma NegativeUnitsLeaveReservationNegative()
    ensures
      var l := Ledger(map["s" := Account(0, 0, "0xs")], map[]);
      var s := CreateStep(l, "s", -5, 2, "OFF1", ChainOk("0xt"));
      && BalancesNonNegative(l.accounts)
      && s.response.Done?
      && s.after.accounts["s"] == Account(5, -5, "0xs")
      && !BalancesNonNegative(s.after.accounts)
  {
  }

  /** A fill of a positive `unit` that the seller's reservation covers keeps balances non-negative. */
  lemma FillKeepsBalancesNonNegative(l: Ledger, buyerId: UserId, offerId: OfferId, unit: int)
    requires offerId in l.offers && l.offers[offerId].creator_id in l.accounts && buyerId in l.accounts
    requires BalancesNonNegative(l.accounts)
    requires 0 < unit <= l.accounts[l.offers[offerId].creator_id].reserved_energy
    ensures BalancesNonNegative(Fill(l, buyerId, offerId, unit).accounts)
  {
  }

  /** A release with a non-negative refund keeps balances non-negative. */
  lemma ReleaseKeepsBalancesNonNegative(l: Ledger, offerId: OfferId, refund: int)
    requires offerId in l.offers && l.offers[offerId].creator_id in l.accounts
    requires BalancesNonNegative(l.accounts)
    requires refund >= 0
    ensures BalancesNonNegative(Release(l, offerId, refund).accounts)
  {
  }

  /** A fill takes `unit` from a reservation that, under the invariant, covers the offer. */
  lemma AcceptKeepsBalancesNonNegative(l: Ledger, buyerId: UserId, offerId: OfferId, unit: int,
                                       chain: ChainResult)
    requires Consistent(l) && BalancesNonNegative(l.accounts)
    requires unit > 0
    ensures BalancesNonNegative(AcceptStep(l, buyerId, offerId, unit, chain).after.accounts)
  {
    if AcceptStep(l, buyerId, offerId, unit, chain).response.Done? {
      OpenUnitsCoverOffer(l, offerId);
      FillKeepsBalancesNonNegative(l, buyerId, offerId, unit);
    }
  }

  /** Cancelling floors the reservation at 0 and credits a refund that well-formed offers
      keep non-negative. */
  lemma CancelKeepsBalancesNonNegative(l: Ledger, requester: UserId, offerId: OfferId)
    requires Consistent(l) && BalancesNonNegative(l.accounts)
    ensures BalancesNonNegative(CancelStep(l, requester, offerId).after.accounts)
    ensures BalancesNonNegative(CancelCorrected(l, requester, offerId).after.accounts)
  {
    if CancelRejection(l, requester, offerId).None? {
      var o := l.offers[offerId];
      assert 0 <= o.remaining_units <= o.units;
      ReleaseKeepsBalancesNonNegative(l, offerId, o.units);
      ReleaseKeepsBalancesNonNegative(l, offerId, o.remaining_units);
    }
  }

  /* ---------- Terminal states and round trip ---------- */

  /** Cancelled and completed offers are terminal: no handler changes them, and
      accepting or cancelling one is rejected with nothing changed. */
  lemma ClosedOffersAreFinal(l: Ledger, id: OfferId, user: UserId, unit: int, chain: ChainResult)
    requires id in l.offers && l.offers[id].status != Open
    ensures AcceptStep(l, user, id, unit, chain) == Step(Fail(400, "Invalid offer"), l)
    ensures CancelStep(l, user, id).after == l && CancelStep(l, user, id).response.Fail?
    ensures forall other: OfferId, u: int, c: ChainResult ::
      AcceptStep(l, user, other, u, c).after.offers[id] == l.offers[id]
    ensures forall other: OfferId :: CancelStep(l, user, other).after.offers[id] == l.offers[id]
    ensures forall creator: UserId, units: int, price: int, newId: OfferId, c: ChainResult
      | newId !in l.offers :: CreateStep(l, creator, units, price, newId, c).after.offers[id] == l.offers[id]
  {
  }

  /** Creating an offer and cancelling it before any fill gives every account back
      exactly the balances it had. */
  lemma CreateThenCancelRestoresAccounts(l: Ledger, creatorId: UserId, units: int, tokenPerUnit: int,
                                         newId: OfferId, chain: ChainResult)
    requires newId !in l.offers
    requires creatorId != "" && newId != ""
    requires creatorId in l.accounts && l.accounts[creatorId].reserved_energy >= 0
    requires CreateStep(l, creatorId, units, tokenPerUnit, newId, chain).response.Done?
    ensures var s := CancelStep(CreateStep(l, creatorId, units, tokenPerUnit, newId, chain).after, creatorId, newId);
      && s.response.Done?
      && s.after.accounts == l.accounts
      && s.after.offers[newId].status == Cancelled
  {
    var l1 := CreateStep(l, creatorId, units, tokenPerUnit, newId, chain).after;
    var s := CancelStep(l1, creatorId, newId);
    assert s.after.accounts[creatorId] == l.accounts[creatorId];
    assert s.after.accounts == l.accounts;
  }

  /** A fill of the whole remainder completes the offer; a smaller fill leaves it open
      with exactly `unit` fewer units left. */
  lemma AcceptFillsOrCompletes(l: Ledger, buyerId: UserId, offerId: OfferId, unit: int, chain: ChainResult)
    requires AcceptStep(l, buyerId, offerId, unit, chain).response.Done?
    ensures var o' := AcceptStep(l, buyerId, offerId, unit, chain).response.offer;
      && (unit == l.offers[offerId].remaining_units ==> o'.status == Completed && o'.remaining_units == 0)
      && (unit < l.offers[offerId].remaining_units ==>
            o'.status == Open && o'.remaining_units == l.offers[offerId].remaining_units - unit)
  {
  }

  /** The shipped handler rejects even a cancellation the intended checks allow. */
  lemma ShippedCancelAlwaysFails(l: Ledger, requester: UserId, offerId: OfferId)
    requires CancelStep(l, requester, offerId).response.Done?
    ensures CancelAsShipped(l, Some(requester), offerId) == Step(Fail(500, "Server error"), l)
    ensures CancelAsShipped(l, Some(requester), offerId) != CancelStep(l, requester, offerId)
  {
  }

  /* ---------- The handlers as one object holding both collections ---------- */

  class Market {
    var accounts: map<UserId, Account>
    var offers: map<OfferId, Offer>

    function State(): Ledger
      reads this
    {
      Ledger(accounts, offers)
    }

    ghost predicate Valid()
      reads this
    {
      Consistent(State()) && BalancesNonNegative(accounts)
    }

    constructor (accounts0: map<UserId, Account>, offers0: map<OfferId, Offer>)
      ensures State() == Ledger(accounts0, offers0)
    {
      accounts := accounts0;
      offers := offers0;
    }

    /** `createoffer`. The writes happen inside the transaction before the chain call;
        a chain failure aborts, putting both collections back. */
    method CreateOffer(creatorId: UserId, units: int, tokenPerUnit: int, newId: OfferId,
                       chain: ChainResult) returns (response: Response)
      requires newId !in offers
      modifies this
      ensures Step(response, State()) == CreateStep(old(State()), creatorId, units, tokenPerUnit, newId, chain)
      ensures TotalEnergy(accounts) == TotalEnergy(old(accounts))
      ensures old(Valid()) && units > 0 ==> Valid()
    {
      ghost var before := State();
      var snapshot := (accounts, offers);
      if creatorId !in accounts {
        return Fail(500, "Creator not found");
      }
      var creator := accounts[creatorId];
      if creator.energy_balance < units {
        return Fail(400, "Not enough energy");
      }
      creator := creator.(energy_balance := creator.energy_balance - units);
      creator := creator.(reserved_energy := creator.reserved_energy + units);
      var offer := Offer(creatorId, units, units, tokenPerUnit, units * tokenPerUnit, Open);
      accounts := accounts[creatorId := creator];
      offers := offers[newId := offer];
      if chain.ChainErr? {
        accounts, offers := snapshot.0, snapshot.1;
        return Fail(500, chain.error);
      }
      response := Done(offer);
      assert Step(response, State()) == CreateStep(before, creatorId, units, tokenPerUnit, newId, chain);
      CreateConservesEnergy(before, creatorId, units, tokenPerUnit, newId, chain);
      if Consistent(before) && BalancesNonNegative(before.accounts) && units > 0 {
        CreateKeepsConsistent(before, creatorId, units, tokenPerUnit, newId, chain);
        CreateKeepsBalancesNonNegative(before, creatorId, units, tokenPerUnit, newId, chain);
      }
    }

    /** `acceptoffer`. Nothing is written before the chain call succeeds. */
    method AcceptOffer(buyerId: UserId, offerId: OfferId, unit: int, chain: ChainResult)
      returns (response: Response)
      modifies this
      ensures Step(response, State()) == AcceptStep(old(State()), buyerId, offerId, unit, chain)
      ensures TotalEnergy(accounts) == TotalEnergy(old(accounts))
      ensures old(Valid()) && unit > 0 ==> Valid()
    {
      ghost var before := State();
      if offerId !in offers || offers[offerId].status != Open {
        return Fail(400, "Invalid offer");
      }
      var offer := offers[offerId];
      if unit > offer.remaining_units {
        return Fail(400, "Units exceed offer");
      }
      if buyerId !in accounts || offer.creator_id !in accounts {
        return Fail(500, NullWalletMessage);
      }
      if chain.ChainErr? {
        return Fail(500, chain.error);
      }
      var seller := accounts[offer.creator_id];
      seller := seller.(reserved_energy := seller.reserved_energy - unit);
      accounts := accounts[offer.creator_id := seller];
      var buyer := accounts[buyerId];
      buyer := buyer.(energy_balance := buyer.energy_balance + unit);
      accounts := accounts[buyerId := buyer];
      offer := offer.(remaining_units := offer.remaining_units - unit);
      if offer.remaining_units == 0 {
        offer := offer.(status := Completed);
      }
      offers := offers[offerId := offer];
      response := Done(offer);
      assert Step(response, State()) == AcceptStep(before, buyerId, offerId, unit, chain);
      AcceptConservesEnergy(before, buyerId, offerId, unit, chain);
      if Consistent(before) && BalancesNonNegative(before.accounts) && unit > 0 {
        AcceptKeepsConsistent(before, buyerId, offerId, unit, chain);
        AcceptKeepsBalancesNonNegative(before, buyerId, offerId, unit, chain);
      }
    }

    /** `canceloffer` with the checks of lines 104-151 and the requester as a parameter. */
    method CancelOffer(requester: UserId, offerId: OfferId) returns (response: Response)
      modifies this
      ensures Step(response, State()) == CancelStep(old(State()), requester, offerId)
      ensures old(Valid()) ==> Valid()
    {
      ghost var before := State();
      if requester == "" || offerId == "" {
        return Fail(400, "Missing fields");
      }
      if offerId !in offers {
        return Fail(404, "Offer not found");
      }
      var offer := offers[offerId];
      if offer.creator_id != requester {
        return Fail(403, "Only creator can cancel");
      }
      if offer.status != Open {
        return Fail(400, "Cannot cancel in current status");
      }
      if offer.creator_id !in accounts {
        return Fail(404, "Creator not found");
      }
      var creator := accounts[offer.creator_id];
      creator := creator.(reserved_energy := Max(0, creator.reserved_energy - offer.remaining_units));
      creator := creator.(energy_balance := creator.energy_balance + offer.units);
      offer := offer.(status := Cancelled);
      accounts := accounts[offer.creator_id := creator];
      offers := offers[offerId := offer];
      response := Done(offer);
      assert Step(response, State()) == CancelStep(before, requester, offerId);
      if Consistent(before) && BalancesNonNegative(before.accounts) {
        CancelKeepsConsistent(before, requester, offerId);
        CancelKeepsBalancesNonNegative(before, requester, offerId);
      }
    }
  }
}
