/**
 * The persistent state of the retreat application and the queries shared by
 * the serializers and the views: retreats, reservations, order lines,
 * refunds, payment profiles, wait-queue subscriptions and wait-queue
 * notifications.
 */
module Models {
  import opened Outcomes
  import opened Seqs

  /** Instants are whole seconds; durations are differences of instants. */
  type Time = int
  type UserId = nat
  /** Retreats, reservations and order lines are identified by their position:
      rows of these tables are never hard-deleted, and a new row takes the next
      position. */
  type RetreatId = nat
  type ReservationId = nat
  type OrderLineId = nat

  const MINUTE: int := 60
  const HOUR: int := 60 * MINUTE
  const DAY: int := 24 * HOUR

  /** Codes stored in `cancelation_reason` and `cancelation_action`. */
  const REASON_USER: char := 'U'
  const ACTION_REFUNDED: char := 'R'
  const ACTION_NOT_REFUNDED: char := 'N'
  const ACTION_EXCHANGED: char := 'E'

  /** A retreat; `price` is in cents, `minDayRefund` and `minDayExchange` in days. */
  datatype Retreat = Retreat(
    seats: nat,
    reservedSeats: nat,
    price: nat,
    startTime: Time,
    endTime: Time,
    minDayRefund: nat,
    minDayExchange: nat,
    refundRate: int,
    nextUserNotified: nat,
    isActive: bool)

  datatype Reservation = Reservation(
    user: UserId,
    retreat: RetreatId,
    orderLine: Option<OrderLineId>,
    isActive: bool,
    isPresent: bool,
    cancelationReason: Option<char>,
    cancelationAction: Option<char>,
    cancelationDate: Option<Time>)

  /** An order line buying `quantity` places of a retreat. */
  datatype OrderLine = OrderLine(quantity: nat, retreat: RetreatId)

  /** A refund row; `amount` is in dollars, as the source stores it. */
  datatype RefundRecord = RefundRecord(orderLine: OrderLineId, amount: real)

  /** A subscription to the wait queue of a retreat. */
  datatype WaitEntry = WaitEntry(id: nat, user: UserId, retreat: RetreatId, createdAt: Time)

  /** A record that `user` was told a reserved seat of `retreat` is free. */
  datatype Notification = Notification(user: UserId, retreat: RetreatId, createdAt: Time)

  /** The outcome of one call to the payment gateway. */
  datatype Gateway = Approved | Declined(code: nat)

  /** The gateway code for an order whose payment is not settled yet. */
  const NOT_CHARGED_YET: nat := 3406

  /** The failures a request can end with; each leaves the state as it was. */
  datatype Error =
    | NotFound                 // the object does not exist (HTTP 404)
    | MethodNotAllowed         // full update of a reservation (HTTP 405)
    | UnknownRetreat           // the requested retreat does not exist
    | RefundRateOutOfRange     // refund rate above 100 percent
    | OnlyIsPresentAndRetreat  // a partial update touched a field outside the whitelist
    | OverlappingReservation   // another active reservation of the user overlaps
    | QuantityAboveOne         // the order line holds several places
    | BalanceNeedsToken        // a dearer retreat was asked for without a payment token
    | RetreatAlreadyAssigned   // the exchange targets the current retreat
    | ExchangeDeadlinePassed   // fewer than `minDayExchange` days before the start
    | NoPlacesLeft             // the requested retreat is full
    | NotChargedYet            // the gateway answered NOT_CHARGED_YET to a refund
    | PaymentFailed(code: nat) // any other gateway error
    | ServerError              // an uncaught exception (HTTP 500)

  /** An active reservation of retreat `rid`. */
  predicate ActiveAt(r: Reservation, rid: RetreatId)
  {
    r.isActive && r.retreat == rid
  }

  /** `retreat.reservations.filter(is_active=True).count()`. */
  function ActiveCount(rs: seq<Reservation>, rid: RetreatId): (n: nat)
    ensures n <= |rs|
    ensures n == 0 <==> forall i :: 0 <= i < |rs| ==> !ActiveAt(rs[i], rid)
    decreases |rs|
  {
    if rs == [] then 0
    else ActiveCount(rs[..|rs| - 1], rid) + (if ActiveAt(rs[|rs| - 1], rid) then 1 else 0)
  }

  lemma ActiveCountAppend(rs: seq<Reservation>, r: Reservation, rid: RetreatId)
    ensures ActiveCount(rs + [r], rid) == ActiveCount(rs, rid) + (if ActiveAt(r, rid) then 1 else 0)
  {
    assert (rs + [r])[..|rs|] == rs;
  }

  /** Replacing one row changes the count by what that row contributes. */
  lemma {:induction false} ActiveCountUpdate(rs: seq<Reservation>, i: nat, r: Reservation, rid: RetreatId)
    requires i < |rs|
    ensures ActiveCount(rs[i := r], rid)
         == ActiveCount(rs, rid) - (if ActiveAt(rs[i], rid) then 1 else 0) + (if ActiveAt(r, rid) then 1 else 0)
    decreases |rs|
  {
    var last := |rs| - 1;
    if i == last {
      assert rs[i := r][..last] == rs[..last];
    } else {
      ActiveCountUpdate(rs[..last], i, r, rid);
      assert rs[i := r][..last] == rs[..last][i := r];
    }
  }

  /** `retreat.wait_queue`: the retreat's subscriptions, oldest first. */
  function QueueOf(wq: seq<WaitEntry>, rid: RetreatId): (q: seq<WaitEntry>)
    ensures forall e :: e in q <==> e in wq && e.retreat == rid
    ensures QueueWellFormed(wq) ==> QueueWellFormed(q)
  {
    FilterKeepsQueueWellFormed(wq, OfRetreat(rid));
    Filter(wq, OfRetreat(rid))
  }

  /** The test `retreat == rid` on a subscription. */
  function OfRetreat(rid: RetreatId): WaitEntry -> bool
  {
    (e: WaitEntry) => e.retreat == rid
  }

  /** The wait queue without `user`'s subscriptions to retreat `rid`. */
  function WithoutUserEntries(wq: seq<WaitEntry>, user: UserId, rid: RetreatId): (r: seq<WaitEntry>)
    ensures forall e :: e in r <==> e in wq && !(e.user == user && e.retreat == rid)
    ensures QueueWellFormed(wq) ==> QueueWellFormed(r)
  {
    var keep := (e: WaitEntry) => !(e.user == user && e.retreat == rid);
    FilterKeepsQueueWellFormed(wq, keep);
    Filter(wq, keep)
  }

  /** The notifications without those of `user` for retreat `rid`. */
  function WithoutUserNotifications(ns: seq<Notification>, user: UserId, rid: RetreatId): (r: seq<Notification>)
    ensures forall n :: n in r <==> n in ns && !(n.user == user && n.retreat == rid)
    ensures !HasNotification(r, user, rid)
  {
    Filter(ns, (n: Notification) => !(n.user == user && n.retreat == rid))
  }

  /** `user` holds a wait-queue notification for retreat `rid`. */
  predicate HasNotification(ns: seq<Notification>, user: UserId, rid: RetreatId)
    ensures HasNotification(ns, user, rid) <==> exists i :: 0 <= i < |ns| && ns[i].user == user && ns[i].retreat == rid
  {
    exists n :: n in ns && n.user == user && n.retreat == rid
  }

  /** Every reservation refers to an existing retreat and order line. */
  ghost predicate ReservationsWellFormed(rs: seq<Reservation>, retreatCount: nat, lineCount: nat)
  {
    forall i :: 0 <= i < |rs| ==>
      rs[i].retreat < retreatCount && (rs[i].orderLine.Some? ==> rs[i].orderLine.value < lineCount)
  }

  /** Subscriptions have distinct ids and are kept in `created_at` order. */
  ghost predicate QueueWellFormed(wq: seq<WaitEntry>)
  {
    && (forall i, j :: 0 <= i < j < |wq| ==> wq[i].id != wq[j].id)
    && (forall i, j :: 0 <= i < j < |wq| ==> wq[i].createdAt <= wq[j].createdAt)
  }

  /** Deleting subscriptions keeps the ids distinct and the order intact. */
  lemma {:induction false} FilterKeepsQueueWellFormed(wq: seq<WaitEntry>, keep: WaitEntry -> bool)
    ensures QueueWellFormed(wq) ==> QueueWellFormed(Filter(wq, keep))
    decreases |wq|
  {
    if wq != [] && QueueWellFormed(wq) {
      var init, last := wq[..|wq| - 1], wq[|wq| - 1];
      assert QueueWellFormed(init);
      FilterKeepsQueueWellFormed(init, keep);
      var f := Filter(init, keep);
      if keep(last) {
        assert Filter(wq, keep) == f + [last];
        forall x | x in f
          ensures x.id != last.id && x.createdAt <= last.createdAt
        {
          var k :| 0 <= k < |init| && init[k] == x;
          assert wq[k] == x;
        }
      }
    }
  }

  /** The contents of every table at one moment. */
  datatype Tables = Tables(
    retreats: seq<Retreat>,
    reservations: seq<Reservation>,
    orderLines: seq<OrderLine>,
    refunds: seq<RefundRecord>,
    profiles: set<UserId>,
    waitQueue: seq<WaitEntry>,
    notifications: seq<Notification>)

  /** The database: one table per entity, each a sequence of rows. */
  class Database {
    var retreats: seq<Retreat>
    var reservations: seq<Reservation>
    var orderLines: seq<OrderLine>
    var refunds: seq<RefundRecord>
    var profiles: set<UserId>
    var waitQueue: seq<WaitEntry>
    var notifications: seq<Notification>

    ghost predicate Valid()
      reads this
    {
      && ReservationsWellFormed(reservations, |retreats|, |orderLines|)
      && (forall e :: e in waitQueue ==> e.retreat < |retreats|)
      && QueueWellFormed(waitQueue)
    }

    /** The current contents of the tables. */
    function Snapshot(): Tables
      reads this
    {
      Tables(retreats, reservations, orderLines, refunds, profiles, waitQueue, notifications)
    }

    constructor ()
      ensures Valid()
      ensures retreats == [] && reservations == [] && orderLines == [] && refunds == []
      ensures profiles == {} && waitQueue == [] && notifications == []
    {
      retreats, reservations, orderLines, refunds := [], [], [], [];
      profiles, waitQueue, notifications := {}, [], [];
    }
  }
}
