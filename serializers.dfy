/**
 * The reservation rules of `retirement/serializers.py`: places remaining,
 * refund-rate validation, the overlap rule, the partial-update whitelist and
 * the exchange of a reservation for another retreat.
 */
module Serializers {
  import opened Outcomes
  import opened Seqs
  import opened Models
  import opened Money

  function Max(a: int, b: int): (m: int)
    ensures m >= a && m >= b && (m == a || m == b)
  {
    if a < b then b else a
  }

  function Min(a: int, b: int): (m: int)
    ensures m <= a && m <= b && (m == a || m == b)
  {
    if a < b then a else b
  }

  // ---------------------------------------------------------------------
  // Retreat serializer

  /**
   * Places remaining in a retreat: its seats, less its active reservations,
   * less the seats held back for the wait queue. Nothing clamps the value.
   */
  function PlacesRemaining(r: Retreat, rs: seq<Reservation>, rid: RetreatId): (p: int)
    ensures p <= r.seats - r.reservedSeats
    ensures p < 0 <==> ActiveCount(rs, rid) + r.reservedSeats > r.seats
  {
    r.seats - ActiveCount(rs, rid) - r.reservedSeats
  }

  /** A new active reservation takes exactly one place. */
  lemma BookingTakesOnePlace(r: Retreat, rs: seq<Reservation>, rid: RetreatId, booked: Reservation)
    requires ActiveAt(booked, rid)
    ensures PlacesRemaining(r, rs + [booked], rid) == PlacesRemaining(r, rs, rid) - 1
  {
    ActiveCountAppend(rs, booked, rid);
  }

  /** Deactivating an active reservation gives back exactly one place. */
  lemma CancelFreesOnePlace(r: Retreat, rs: seq<Reservation>, rid: RetreatId, i: nat, canceled: Reservation)
    requires i < |rs| && ActiveAt(rs[i], rid) && !canceled.isActive
    ensures PlacesRemaining(r, rs[i := canceled], rid) == PlacesRemaining(r, rs, rid) + 1
  {
    ActiveCountUpdate(rs, i, canceled, rid);
  }

  /** A refund rate above 100 percent is refused; any other value is kept. */
  function ValidateRefundRate(value: int): (r: Result<int, Error>)
    ensures r.Ok? <==> value <= 100
    ensures r.Ok? ==> r.value == value
    ensures r.Err? ==> r.error == RefundRateOutOfRange
  {
    if value > 100 then Err(RefundRateOutOfRange) else Ok(value)
  }

  // ---------------------------------------------------------------------
  // Availability and overlap

  /**
   * `user` may take a place in retreat `rid`: either a place is free, or the
   * retreat holds reserved seats and the user was notified by the wait queue.
   */
  predicate SeatAvailable(target: Retreat, rs: seq<Reservation>, rid: RetreatId, ns: seq<Notification>, user: UserId)
    ensures SeatAvailable(target, rs, rid, ns, user) && !HasNotification(ns, user, rid) ==>
      ActiveCount(rs, rid) + target.reservedSeats < target.seats
    ensures PlacesRemaining(target, rs, rid) <= 0 ==>
      (SeatAvailable(target, rs, rid, ns, user) <==> target.reservedSeats > 0 && HasNotification(ns, user, rid))
  {
    PlacesRemaining(target, rs, rid) > 0 || (target.reservedSeats > 0 && HasNotification(ns, user, rid))
  }

  /**
   * A user without a notification only ever takes a free place: after the
   * booking the active reservations and the reserved seats still fit.
   */
  lemma FreePlaceKeepsCapacity(target: Retreat, rs: seq<Reservation>, rid: RetreatId, ns: seq<Notification>,
                               user: UserId, booked: Reservation)
    requires SeatAvailable(target, rs, rid, ns, user) && !HasNotification(ns, user, rid)
    requires ActiveAt(booked, rid)
    ensures ActiveCount(rs + [booked], rid) + target.reservedSeats <= target.seats
  {
    ActiveCountAppend(rs, booked, rid);
  }

  /** Half-open intervals `[start1, end1)` and `[start2, end2)` share an instant. */
  function Overlaps(start1: Time, end1: Time, start2: Time, end2: Time): (o: bool)
    ensures o <==> start1 < end1 && start2 < end2 && start1 < end2 && start2 < end1
    ensures end1 == start2 || end2 == start1 ==> !o
  {
    Max(start1, start2) < Min(end1, end2)
  }

  lemma OverlapsSymmetric(start1: Time, end1: Time, start2: Time, end2: Time)
    ensures Overlaps(start1, end1, start2, end2) == Overlaps(start2, end2, start1, end1)
  {
  }

  /** `r` is an active reservation of `user` whose retreat overlaps `[start, end)`. */
  predicate Conflicts(r: Reservation, retreats: seq<Retreat>, user: UserId, start: Time, end: Time)
  {
    && r.user == user
    && r.isActive
    && r.retreat < |retreats|
    && Overlaps(retreats[r.retreat].startTime, retreats[r.retreat].endTime, start, end)
  }

  /**
   * The scan over the user's active reservations: it stops at the first one,
   * not excluded, that overlaps `[start, end)`.
   */
  method FindConflict(rs: seq<Reservation>, retreats: seq<Retreat>, user: UserId, start: Time, end: Time,
                      excluded: nat -> bool)
    returns (found: bool)
    ensures found <==> exists i :: 0 <= i < |rs| && !excluded(i) && Conflicts(rs[i], retreats, user, start, end)
  {
    for i := 0 to |rs|
      invariant forall k :: 0 <= k < i ==> excluded(k) || !Conflicts(rs[k], retreats, user, start, end)
    {
      if !excluded(i) && Conflicts(rs[i], retreats, user, start, end) {
        return true;
      }
    }
    return false;
  }

  /**
   * The validated fields of a reservation creation request. `user`,
   * `retirement` and `is_active` are required; every other writable field is
   * `None` when the request leaves it out. `carriesToken` says whether a
   * `payment_token` or `single_use_token` was sent.
   */
  datatype NewReservation = NewReservation(
    user: UserId,
    retreat: RetreatId,
    isActive: bool,
    isPresent: Option<bool>,
    orderLine: Option<Option<OrderLineId>>,
    cancelationReason: Option<Option<char>>,
    cancelationAction: Option<Option<char>>,
    cancelationDate: Option<Option<Time>>,
    carriesToken: bool)

  /** A field the request gives must hold the given value; a missing one matches anything. */
  predicate Given<T(==)>(field: Option<T>, value: T)
  {
    field.Some? ==> field.value == value
  }

  /**
   * The rows the creation check leaves out: those equal to the request on
   * every field the request gives (`exclude(**validated_data)`).
   */
  predicate MatchesRequest(r: Reservation, req: NewReservation)
    ensures MatchesRequest(r, req) ==> r.user == req.user && r.retreat == req.retreat && r.isActive == req.isActive
    ensures req.isPresent.None? && req.orderLine.None? && req.cancelationReason.None?
            && req.cancelationAction.None? && req.cancelationDate.None? ==>
      (MatchesRequest(r, req) <==> r.user == req.user && r.retreat == req.retreat && r.isActive == req.isActive)
  {
    && r.user == req.user
    && r.retreat == req.retreat
    && r.isActive == req.isActive
    && Given(req.isPresent, r.isPresent)
    && Given(req.orderLine, r.orderLine)
    && Given(req.cancelationReason, r.cancelationReason)
    && Given(req.cancelationAction, r.cancelationAction)
    && Given(req.cancelationDate, r.cancelationDate)
  }

  /**
   * Validation of a new reservation: refused exactly when an active
   * reservation of the same user, other than the rows matching the request,
   * overlaps the requested retreat. A token is not a reservation column, so
   * a request carrying one makes the exclusion query fail.
   */
  method ValidateNewReservation(rs: seq<Reservation>, retreats: seq<Retreat>, req: NewReservation)
    returns (result: Result<(), Error>)
    requires req.retreat < |retreats|
    ensures req.carriesToken ==> result == Err(ServerError)
    ensures !req.carriesToken ==>
      (result.Err? <==>
        exists i :: 0 <= i < |rs| && !MatchesRequest(rs[i], req)
          && Conflicts(rs[i], retreats, req.user, retreats[req.retreat].startTime, retreats[req.retreat].endTime))
    ensures !req.carriesToken && result.Err? ==> result.error == OverlappingReservation
  {
    if req.carriesToken {
      return Err(ServerError);
    }
    var target := retreats[req.retreat];
    var clash := FindConflict(rs, retreats, req.user, target.startTime, target.endTime,
                              (i: nat) => i < |rs| && MatchesRequest(rs[i], req));
    if clash {
      return Err(OverlappingReservation);
    }
    return Ok(());
  }

  // ---------------------------------------------------------------------
  // Partial update

  /** The only fields a partial update may carry. */
  const UPDATABLE_FIELDS: set<string> := {"is_present", "retirement", "payment_token", "single_use_token"}

  /** A partial update is refused when it names any field outside the whitelist. */
  function ValidatePartialUpdate(keys: set<string>): (r: Result<(), Error>)
    ensures r.Ok? <==> keys <= UPDATABLE_FIELDS
    ensures r.Err? ==> r.error == OnlyIsPresentAndRetreat
  {
    var rest := keys - {"is_present"} - {"retirement"} - {"payment_token"} - {"single_use_token"};
    if rest != {} then Err(OnlyIsPresentAndRetreat) else Ok(())
  }

  /**
   * The validated fields of a partial update. `keys` names the writable
   * reservation fields the request gave (unknown and read-only fields never
   * reach validation); an absent, null or blank token is the empty string.
   */
  datatype Patch = Patch(
    keys: set<string>,
    isPresent: Option<bool>,
    retreat: Option<RetreatId>,
    paymentToken: string,
    singleUseToken: string)

  predicate HasToken(patch: Patch)
  {
    patch.paymentToken != [] || patch.singleUseToken != []
  }

  /** Only staff may set `is_present`; otherwise the field is dropped. */
  function Presence(current: Reservation, byStaff: bool, patch: Patch): (p: bool)
    ensures !byStaff ==> p == current.isPresent
    ensures patch.isPresent.None? ==> p == current.isPresent
    ensures byStaff && patch.isPresent.Some? ==> p == patch.isPresent.value
  {
    if byStaff && patch.isPresent.Some? then patch.isPresent.value else current.isPresent
  }

  // ---------------------------------------------------------------------
  // Exchange

  /** `start - now >= timedelta(days=days)`. */
  predicate RespectsMinimumDays(start: Time, now: Time, days: nat)
    ensures RespectsMinimumDays(start, now, days) ==> now <= start
    ensures RespectsMinimumDays(start, now, days) && days > 0 ==> now < start
    ensures days == 0 ==> (RespectsMinimumDays(start, now, days) <==> now <= start)
  {
    start - now >= days * DAY
  }

  /** What an exchange owes: a charge, a refund, or nothing. Amounts in cents. */
  datatype Delta = Dearer(amount: nat) | Cheaper(amount: nat) | SamePrice

  /** The price reached from `price` once `d` is settled. */
  function Settle(price: int, d: Delta): int
  {
    match d
    case Dearer(a) => price + a
    case Cheaper(a) => price - a
    case SamePrice => price
  }

  /**
   * The balance of moving from a retreat priced `oldPrice` to one priced
   * `newPrice`: a charge when the target is dearer, a refund when it is
   * cheaper, nothing when the prices are equal.
   */
  function PriceDelta(oldPrice: nat, newPrice: nat): (d: Delta)
    ensures d.Dearer? <==> oldPrice < newPrice
    ensures d.Cheaper? <==> newPrice < oldPrice
    ensures !d.SamePrice? ==> d.amount > 0
    ensures Settle(oldPrice, d) == newPrice
  {
    if oldPrice < newPrice then Dearer(newPrice - oldPrice)
    else if oldPrice > newPrice then Cheaper(oldPrice - newPrice)
    else SamePrice
  }

  /**
   * The rejections an exchange meets before anything changes, in order:
   * an order line with several places, a dearer retreat without a token,
   * the same retreat, the exchange deadline. Otherwise the balance.
   */
  function CheckExchange(quantity: nat, currentId: RetreatId, current: Retreat, targetId: RetreatId, target: Retreat,
                         hasToken: bool, now: Time): (r: Result<Delta, Error>)
    requires currentId == targetId ==> current == target
    ensures r.Ok? <==>
      && quantity <= 1
      && (current.price < target.price ==> hasToken)
      && currentId != targetId
      && RespectsMinimumDays(current.startTime, now, current.minDayExchange)
    ensures r.Ok? ==> r.value == PriceDelta(current.price, target.price)
    ensures quantity > 1 ==> r == Err(QuantityAboveOne)
    ensures quantity <= 1 && current.price < target.price && !hasToken ==> r == Err(BalanceNeedsToken)
    ensures quantity <= 1 && currentId == targetId ==> r == Err(RetreatAlreadyAssigned)
    ensures r == Err(ExchangeDeadlinePassed) <==>
      && quantity <= 1
      && (current.price < target.price ==> hasToken)
      && currentId != targetId
      && !RespectsMinimumDays(current.startTime, now, current.minDayExchange)
  {
    if quantity > 1 then Err(QuantityAboveOne)
    else if current.price < target.price && !hasToken then Err(BalanceNeedsToken)
    else if currentId == targetId then Err(RetreatAlreadyAssigned)
    else if !RespectsMinimumDays(current.startTime, now, current.minDayExchange) then Err(ExchangeDeadlinePassed)
    else Ok(PriceDelta(current.price, target.price))
  }

  /**
   * The checks of `CheckExchange` applied to reservation `pk` of the tables;
   * a reservation without an order line fails on reading its quantity.
   */
  function ExchangeVerdict(rs: seq<Reservation>, lines: seq<OrderLine>, retreats: seq<Retreat>, pk: ReservationId,
                           targetId: RetreatId, hasToken: bool, now: Time): (r: Result<Delta, Error>)
    requires pk < |rs| && targetId < |retreats|
    requires ReservationsWellFormed(rs, |retreats|, |lines|)
    ensures rs[pk].orderLine.None? ==> r == Err(ServerError)
    ensures r == Err(ServerError) ==> rs[pk].orderLine.None?
    ensures r.Ok? ==>
      && rs[pk].orderLine.Some?
      && lines[rs[pk].orderLine.value].quantity <= 1
      && rs[pk].retreat != targetId
      && RespectsMinimumDays(retreats[rs[pk].retreat].startTime, now, retreats[rs[pk].retreat].minDayExchange)
      && r.value == PriceDelta(retreats[rs[pk].retreat].price, retreats[targetId].price)
  {
    var current := rs[pk];
    if current.orderLine.None? then Err(ServerError)
    else CheckExchange(lines[current.orderLine.value].quantity, current.retreat, retreats[current.retreat],
                       targetId, retreats[targetId], hasToken, now)
  }

  /** An active reservation of `user`, other than `pk`, overlaps `[start, end)`. */
  predicate ConflictsWithOther(rs: seq<Reservation>, retreats: seq<Retreat>, user: UserId, start: Time, end: Time,
                               pk: ReservationId)
  {
    exists i :: 0 <= i < |rs| && i != pk && Conflicts(rs[i], retreats, user, start, end)
  }

  /** The outcomes the gateway gives to each call an exchange may make. */
  datatype GatewayScript = GatewayScript(createProfile: Gateway, addCard: Gateway, charge: Gateway, refund: Gateway)

  /** The money an exchange asked the gateway to move, in whole cents. */
  datatype GatewayRequest = ChargeRequest(cents: int) | RefundRequest(cents: int)

  /**
   * The gateway request for balance `d` at tax rate `tax`: `int(amount)`
   * cents, charged for a dearer retreat and refunded for a cheaper one.
   */
  function RequestFor(d: Delta, tax: real): (r: Option<GatewayRequest>)
    ensures r.Some? <==> !d.SamePrice?
    ensures r.Some? ==> (r.value.ChargeRequest? <==> d.Dearer?)
    ensures r.Some? && tax >= 0.0 && d.amount >= 1 ==> r.value.cents >= 1
  {
    match d
    case Dearer(a) => Some(ChargeRequest(SentCents(a, tax)))
    case Cheaper(a) => Some(RefundRequest(SentCents(a, tax)))
    case SamePrice => None
  }

  /** `int(amount)`: the whole cents sent to the gateway for a difference of `delta` cents. */
  function SentCents(delta: nat, tax: real): (n: int)
    ensures tax >= 0.0 && delta >= 1 ==> n >= 1
  {
    ChargeNeverRoundsToZero(delta, tax);
    Truncate(ExchangeCents(delta, tax))
  }

  /**
   * Every gateway call the settlement of `d` makes is approved: the charge
   * (after the card is added when only a single-use token is given) for a
   * dearer retreat, the refund for a cheaper one, nothing for equal prices.
   */
  predicate CallsApproved(d: Delta, patch: Patch, gateway: GatewayScript)
  {
    match d
    case Dearer(_) => gateway.charge.Approved? && (patch.paymentToken == [] ==> gateway.addCard.Approved?)
    case Cheaper(_) => gateway.refund.Approved?
    case SamePrice => true
  }

  /** The error a declined refund ends with. */
  function RefundFailure(code: nat): (e: Error)
    ensures e == NotChargedYet <==> code == NOT_CHARGED_YET
    ensures e != NotChargedYet ==> e == PaymentFailed(code)
  {
    if code == NOT_CHARGED_YET then NotChargedYet else PaymentFailed(code)
  }

  /**
   * How the money part of an exchange ends, given the balance `d` and whether
   * a seat is available on the target: no seat means no gateway call; a
   * declined call fails the exchange with that call's code; when every call
   * is approved (and the tax rate is not negative) the exchange succeeds.
   */
  predicate Settled(d: Delta, seat: bool, patch: Patch, tax: real, gateway: GatewayScript,
                    result: Result<ReservationId, Error>, request: Option<GatewayRequest>)
  {
    && (request.Some? ==> request == RequestFor(d, tax))
    && (d.SamePrice? ==> result.Ok? && request.None?)
    && (!d.SamePrice? && !seat ==> result == Err(NoPlacesLeft) && request.None?)
    && (request.Some? && request.value.ChargeRequest? && gateway.charge.Declined? ==>
          result == Err(PaymentFailed(gateway.charge.code)))
    && (request.Some? && request.value.RefundRequest? && gateway.refund.Declined? ==>
          result == Err(RefundFailure(gateway.refund.code)))
    && (!d.SamePrice? && seat && tax >= 0.0 && (d.Dearer? && patch.paymentToken == [] ==> gateway.addCard.Approved?) ==>
          request == RequestFor(d, tax))
    && (d.Dearer? && seat && tax >= 0.0 && patch.paymentToken == [] && gateway.addCard.Declined? ==>
          result == Err(PaymentFailed(gateway.addCard.code)) && request.None?)
    && (result.Ok? ==> (d.SamePrice? || seat) && request == RequestFor(d, tax) && CallsApproved(d, patch, gateway))
    && (tax >= 0.0 ==> result != Err(ServerError))
    && ((d.SamePrice? || seat) && CallsApproved(d, patch, gateway) && tax >= 0.0 ==> result.Ok?)
  }

  /**
   * Once a seat is free and the tax rate is not negative, the settlement
   * always reaches the gateway, and a declined charge or refund decides the
   * error: the charge's code, or "not charged yet" for a refund refused with
   * 3406 and the refund's code otherwise.
   */
  lemma DeclinedCallFails(d: Delta, seat: bool, patch: Patch, tax: real, gateway: GatewayScript,
                          result: Result<ReservationId, Error>, request: Option<GatewayRequest>)
    requires Settled(d, seat, patch, tax, gateway, result, request)
    requires seat && tax >= 0.0
    ensures d.Dearer? && (patch.paymentToken == [] ==> gateway.addCard.Approved?) && gateway.charge.Declined? ==>
      result == Err(PaymentFailed(gateway.charge.code))
    ensures d.Cheaper? && gateway.refund.Declined? ==> result == Err(RefundFailure(gateway.refund.code))
  {
    if d.Dearer? && (patch.paymentToken == [] ==> gateway.addCard.Approved?) {
      assert request == RequestFor(d, tax);
    }
    if d.Cheaper? {
      assert request == RequestFor(d, tax);
    }
  }

  /** The reservation as it stands on its new retreat after an exchange. */
  function Moved(inst: Reservation, tid: RetreatId, presence: bool, delta: Delta, newLine: OrderLineId): (m: Reservation)
    ensures m.user == inst.user && m.retreat == tid && m.isActive == inst.isActive && m.isPresent == presence
    ensures m.cancelationReason == inst.cancelationReason && m.cancelationAction == inst.cancelationAction
    ensures m.cancelationDate == inst.cancelationDate
    ensures delta.Dearer? ==> m.orderLine == Some(newLine)
    ensures !delta.Dearer? ==> m.orderLine == inst.orderLine
  {
    inst.(retreat := tid, isPresent := presence, orderLine := if delta.Dearer? then Some(newLine) else inst.orderLine)
  }

  /** The inactive copy an exchange leaves on the old retreat. */
  function ExchangedCopy(inst: Reservation, now: Time): (c: Reservation)
    ensures !c.isActive && c.cancelationReason == Some(REASON_USER)
    ensures c.cancelationAction == Some(ACTION_EXCHANGED) && c.cancelationDate == Some(now)
    ensures c.user == inst.user && c.retreat == inst.retreat && c.orderLine == inst.orderLine
    ensures c.isPresent == inst.isPresent
  {
    inst.(isActive := false, cancelationReason := Some(REASON_USER),
          cancelationAction := Some(ACTION_EXCHANGED), cancelationDate := Some(now))
  }

  /**
   * The refund rows an exchange records: the whole old price with tax when a
   * dearer retreat is charged anew, the difference with tax when a cheaper
   * one is refunded. Amounts in dollars.
   */
  function ExchangeRefunds(inst: Reservation, oldPrice: nat, delta: Delta, tax: real): (r: seq<RefundRecord>)
    requires inst.orderLine.Some?
    ensures |r| == if delta.SamePrice? then 0 else 1
    ensures forall x :: x in r ==> x.orderLine == inst.orderLine.value
    ensures delta.Dearer? ==> r[0].amount == oldPrice as real * (1.0 + tax) / 100.0
    ensures delta.Cheaper? ==>
      delta.amount as real * (1.0 + tax) / 100.0 - 0.00005 <= r[0].amount <= delta.amount as real * (1.0 + tax) / 100.0 + 0.00005
  {
    match delta
    case Dearer(_) => [RefundRecord(inst.orderLine.value, oldPrice as real / 100.0 * (1.0 + tax))]
    case Cheaper(a) => [RefundRecord(inst.orderLine.value, ExchangeCents(a, tax) / 100.0)]
    case SamePrice => []
  }

  /** The payment profiles after an exchange: a single-use token for a charge needs one. */
  function ProfilesAfter(profiles: set<UserId>, delta: Delta, patch: Patch, user: UserId): (ps: set<UserId>)
    ensures profiles <= ps && ps - profiles <= {user}
    ensures user in ps <==> user in profiles || (delta.Dearer? && patch.singleUseToken != [])
  {
    if delta.Dearer? && patch.singleUseToken != [] then profiles + {user} else profiles
  }

  /**
   * The tables after reservation `pk` moved to retreat `tid`: the id now
   * names the new retreat, an inactive copy stays on the old one, the user's
   * wait entries for the target are gone when money moved, and the new order
   * line and refund rows are recorded.
   */
  ghost predicate ExchangeState(b: Tables, a: Tables, pk: ReservationId, tid: RetreatId, presence: bool, delta: Delta,
                                now: Time, tax: real, profiles: set<UserId>)
    requires pk < |b.reservations| && b.reservations[pk].orderLine.Some? && b.reservations[pk].retreat < |b.retreats|
  {
    var inst := b.reservations[pk];
    && a.retreats == b.retreats
    && a.notifications == b.notifications
    && a.reservations == b.reservations[pk := Moved(inst, tid, presence, delta, |b.orderLines|)] + [ExchangedCopy(inst, now)]
    && a.waitQueue == (if delta.SamePrice? then b.waitQueue else WithoutUserEntries(b.waitQueue, inst.user, tid))
    && a.orderLines == (if delta.Dearer? then b.orderLines + [OrderLine(1, tid)] else b.orderLines)
    && a.refunds == b.refunds + ExchangeRefunds(inst, b.retreats[inst.retreat].price, delta, tax)
    && a.profiles == profiles
  }

  /**
   * An exchange of an active reservation gives back one place on its old
   * retreat, takes one on the target and leaves every other retreat's places
   * as they were: the moved row is active on the target and the copy left
   * behind is inactive.
   */
  lemma ExchangeMovesOnePlace(b: Tables, a: Tables, pk: ReservationId, tid: RetreatId, presence: bool, delta: Delta,
                              now: Time, tax: real, profiles: set<UserId>, rid: RetreatId)
    requires pk < |b.reservations| && b.reservations[pk].orderLine.Some? && b.reservations[pk].retreat < |b.retreats|
    requires rid < |b.retreats|
    requires b.reservations[pk].isActive && b.reservations[pk].retreat != tid
    requires ExchangeState(b, a, pk, tid, presence, delta, now, tax, profiles)
    ensures rid == b.reservations[pk].retreat ==>
      PlacesRemaining(a.retreats[rid], a.reservations, rid) == PlacesRemaining(b.retreats[rid], b.reservations, rid) + 1
    ensures rid == tid ==>
      PlacesRemaining(a.retreats[rid], a.reservations, rid) == PlacesRemaining(b.retreats[rid], b.reservations, rid) - 1
    ensures rid != b.reservations[pk].retreat && rid != tid ==>
      PlacesRemaining(a.retreats[rid], a.reservations, rid) == PlacesRemaining(b.retreats[rid], b.reservations, rid)
  {
    var inst := b.reservations[pk];
    var moved := b.reservations[pk := Moved(inst, tid, presence, delta, |b.orderLines|)];
    ActiveCountUpdate(b.reservations, pk, Moved(inst, tid, presence, delta, |b.orderLines|), rid);
    ActiveCountAppend(moved, ExchangedCopy(inst, now), rid);
  }

  /**
   * The part of an exchange after the overlap check: the seat check, the
   * payment or refund, and the final save. `profiles` is the profile table
   * once a payment profile has been created for a single-use token.
   */
  method ApplyExchange(db: Database, pk: ReservationId, tid: RetreatId, presence: bool, delta: Delta,
                       patch: Patch, profiles: set<UserId>, now: Time, tax: real, gateway: GatewayScript)
    returns (result: Result<ReservationId, Error>, request: Option<GatewayRequest>)
    requires db.Valid()
    requires pk < |db.reservations| && tid < |db.retreats|
    requires db.reservations[pk].orderLine.Some?
    requires delta.Dearer? ==> HasToken(patch)
    requires !delta.SamePrice? ==> delta.amount > 0
    modifies db
    ensures db.Valid()
    ensures result.Err? ==> unchanged(db)
    ensures result.Ok? ==> result.value == pk
    ensures Settled(delta, SeatAvailable(old(db.retreats)[tid], old(db.reservations), tid, old(db.notifications),
                                         old(db.reservations)[pk].user),
                    patch, tax, gateway, result, request)
    ensures result.Ok? ==> ExchangeState(old(db.Snapshot()), db.Snapshot(), pk, tid, presence, delta, now, tax, profiles)
  {
    request := None;
    var inst := db.reservations[pk];
    var user := inst.user;
    var seatFree := SeatAvailable(db.retreats[tid], db.reservations, tid, db.notifications, user);
    var waitQueue := db.waitQueue;
    match delta {
      case Dearer(amount) =>
        if !seatFree {
          return Err(NoPlacesLeft), None;
        }
        waitQueue := WithoutUserEntries(waitQueue, user, tid);
        var sent := SentCents(amount, tax);
        if patch.paymentToken != [] && sent != 0 {
          request := Some(ChargeRequest(sent));
          if gateway.charge.Declined? {
            return Err(PaymentFailed(gateway.charge.code)), request;
          }
        } else if patch.singleUseToken != [] && sent != 0 {
          if gateway.addCard.Declined? {
            return Err(PaymentFailed(gateway.addCard.code)), None;
          }
          request := Some(ChargeRequest(sent));
          if gateway.charge.Declined? {
            return Err(PaymentFailed(gateway.charge.code)), request;
          }
        } else {
          // no charge was made, so the charge response read next is unbound
          return Err(ServerError), None;
        }
      case Cheaper(amount) =>
        if !seatFree {
          return Err(NoPlacesLeft), None;
        }
        waitQueue := WithoutUserEntries(waitQueue, user, tid);
        request := Some(RefundRequest(SentCents(amount, tax)));
        if gateway.refund.Declined? {
          return Err(RefundFailure(gateway.refund.code)), request;
        }
      case SamePrice =>
    }

    var newLine := |db.orderLines|;
    var copy := ExchangedCopy(inst, now);
    db.reservations := db.reservations[pk := Moved(inst, tid, presence, delta, newLine)] + [copy];
    if delta.Dearer? {
      db.orderLines := db.orderLines + [OrderLine(1, tid)];
    }
    db.refunds := db.refunds + ExchangeRefunds(inst, db.retreats[inst.retreat].price, delta, tax);
    db.profiles := profiles;
    db.waitQueue := waitQueue;
    result := Ok(pk);
  }

  /**
   * How an exchange of reservation `pk` for retreat `patch.retreat` ends:
   * the rejection ladder, then the payment profile for a single-use token,
   * then the overlap check with `pk` itself excluded, then `Settled`.
   */
  ghost predicate ExchangeOutcome(b: Tables, pk: ReservationId, patch: Patch, now: Time, tax: real,
                                  gateway: GatewayScript, result: Result<ReservationId, Error>,
                                  request: Option<GatewayRequest>)
    requires pk < |b.reservations| && patch.retreat.Some? && patch.retreat.value < |b.retreats|
    requires ReservationsWellFormed(b.reservations, |b.retreats|, |b.orderLines|)
  {
    var inst := b.reservations[pk];
    var tid := patch.retreat.value;
    var target := b.retreats[tid];
    var v := ExchangeVerdict(b.reservations, b.orderLines, b.retreats, pk, tid, HasToken(patch), now);
    var clash := ConflictsWithOther(b.reservations, b.retreats, inst.user, target.startTime, target.endTime, pk);
    var seat := SeatAvailable(target, b.reservations, tid, b.notifications, inst.user);
    var needsProfile := v.Ok? && v.value.Dearer? && patch.singleUseToken != [] && inst.user !in b.profiles;
    var profileFailed := needsProfile && gateway.createProfile.Declined?;
    && (v.Err? ==> result == Err(v.error) && request.None?)
    && (profileFailed ==> result == Err(PaymentFailed(gateway.createProfile.code)) && request.None?)
    && (v.Ok? && !profileFailed && clash ==> result == Err(OverlappingReservation) && request.None?)
    && (v.Ok? && !profileFailed && !clash ==> Settled(v.value, seat, patch, tax, gateway, result, request))
    && (result.Ok? ==> v.Ok? && !clash && (needsProfile ==> gateway.createProfile.Approved?))
    && (tax >= 0.0 && inst.orderLine.Some? ==> result != Err(ServerError))
  }

  /**
   * The whole effect of `ReservationSerializer.update` on the tables `b`,
   * giving the tables `a`: a failure changes nothing; without a retreat only
   * the presence flag can change; otherwise the exchange ends as
   * `ExchangeOutcome` says and, on success, leaves `ExchangeState`.
   */
  ghost predicate Updated(b: Tables, a: Tables, pk: ReservationId, byStaff: bool, patch: Patch, now: Time, tax: real,
                          gateway: GatewayScript, result: Result<ReservationId, Error>, request: Option<GatewayRequest>)
    requires pk < |b.reservations| && (patch.retreat.Some? ==> patch.retreat.value < |b.retreats|)
    requires ReservationsWellFormed(b.reservations, |b.retreats|, |b.orderLines|)
  {
    var inst := b.reservations[pk];
    var presence := Presence(inst, byStaff, patch);
    && (result.Err? ==> a == b)
    && (result.Ok? ==> result.value == pk)
    && (patch.retreat.None? ==>
          && result == Ok(pk) && request.None?
          && a == b.(reservations := b.reservations[pk := inst.(isPresent := presence)]))
    && (patch.retreat.Some? ==>
          && ExchangeOutcome(b, pk, patch, now, tax, gateway, result, request)
          && (result.Ok? ==>
                var tid := patch.retreat.value;
                var v := ExchangeVerdict(b.reservations, b.orderLines, b.retreats, pk, tid, HasToken(patch), now);
                && v.Ok?
                && ExchangeState(b, a, pk, tid, presence, v.value, now, tax, ProfilesAfter(b.profiles, v.value, patch, inst.user))))
  }

  /**
   * `ReservationSerializer.update` for a partial update: sets `is_present`
   * (staff only) and, when a retreat is given, exchanges the reservation.
   * The exchange keeps the reservation's id on the new retreat and appends an
   * inactive copy on the old one; a dearer retreat is charged the difference
   * with tax, a cheaper one refunds it, and equal prices move no money and
   * check no seats. Any failure leaves the database as it was.
   */
  method Update(db: Database, pk: ReservationId, byStaff: bool, patch: Patch, now: Time, tax: real,
                gateway: GatewayScript)
    returns (result: Result<ReservationId, Error>, request: Option<GatewayRequest>)
    requires db.Valid()
    requires pk < |db.reservations|
    requires patch.retreat.Some? ==> patch.retreat.value < |db.retreats|
    modifies db
    ensures db.Valid()
    ensures result.Err? ==> unchanged(db)
    ensures Updated(old(db.Snapshot()), db.Snapshot(), pk, byStaff, patch, now, tax, gateway, result, request)
  {
    request := None;
    var inst := db.reservations[pk];
    var presence := Presence(inst, byStaff, patch);
    if patch.retreat.None? {
      db.reservations := db.reservations[pk := inst.(isPresent := presence)];
      return Ok(pk), None;
    }
    var tid := patch.retreat.value;
    var verdict := ExchangeVerdict(db.reservations, db.orderLines, db.retreats, pk, tid, HasToken(patch), now);
    if verdict.Err? {
      return Err(verdict.error), None;
    }
    var delta := verdict.value;
    var user := inst.user;
    var target := db.retreats[tid];

    // a single-use token needs a payment profile before the card is added
    var profiles := db.profiles;
    if delta.Dearer? && patch.singleUseToken != [] && user !in profiles {
      if gateway.createProfile.Declined? {
        return Err(PaymentFailed(gateway.createProfile.code)), None;
      }
      profiles := profiles + {user};
    }
    assert profiles == ProfilesAfter(db.profiles, delta, patch, user);

    var clash := FindConflict(db.reservations, db.retreats, user, target.startTime, target.endTime, (i: nat) => i == pk);
    if clash {
      return Err(OverlappingReservation), None;
    }
    result, request := ApplyExchange(db, pk, tid, presence, delta, patch, profiles, now, tax, gateway);
  }
}
