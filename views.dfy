/**
 * The request handlers of `retirement/views.py` that change or guard the
 * bookkeeping: retreat soft-delete, the reminder, notify and recap actions,
 * reservation update and cancellation, and unsubscribing from a wait queue.
 * Each request is one all-or-nothing step: a failure leaves the database as
 * it was.
 */
module Views {
  import opened Outcomes
  import opened Seqs
  import opened Models
  import opened Serializers

  /** An HTTP reply: its status, its `detail` message and its `stop` flag. */
  datatype Reply = Reply(status: nat, detail: Option<string>, stop: bool)

  const REMIND_TOO_EARLY: string := "Retreat takes place in more than 8 days."
  const RECAP_TOO_EARLY: string := "Retreat ends in more than 1 day."
  const NOTIFIED_RECENTLY: string := "Last notification was sent less than 24h ago."
  const NO_RESERVED_SEATS: string := "No reserved seats."

  /** Reminders go out from 8 days before the start. */
  const REMIND_WINDOW: int := 8 * DAY
  /** The recap goes out from 1 day before the end. */
  const RECAP_WINDOW: int := DAY
  /** Two wait-queue notification rounds are at least 23h55m apart. */
  const NOTIFY_THROTTLE: int := 23 * HOUR + 55 * MINUTE

  // ---------------------------------------------------------------------
  // Retreats

  /**
   * `RetreatViewSet.destroy`: a soft delete. The retreat is only marked
   * inactive, and deleting an inactive retreat changes nothing.
   */
  method DestroyRetreat(db: Database, rid: RetreatId) returns (result: Result<(), Error>)
    requires db.Valid()
    modifies db
    ensures db.Valid()
    ensures rid >= |old(db.retreats)| ==> result == Err(NotFound) && unchanged(db)
    ensures rid < |old(db.retreats)| ==>
      && result == Ok(())
      && db.retreats == old(db.retreats)[rid := old(db.retreats)[rid].(isActive := false)]
      && unchanged(db`reservations, db`orderLines, db`refunds, db`profiles, db`waitQueue, db`notifications)
    ensures rid < |old(db.retreats)| && !old(db.retreats)[rid].isActive ==> unchanged(db)
  {
    if rid >= |db.retreats| {
      return Err(NotFound);
    }
    var r := db.retreats[rid];
    if r.isActive {
      db.retreats := db.retreats[rid := r.(isActive := false)];
    }
    return Ok(());
  }

  /** The users of the active reservations of retreat `rid`, one per reservation. */
  function ActiveUsers(rs: seq<Reservation>, rid: RetreatId): (us: seq<UserId>)
    ensures |us| == ActiveCount(rs, rid)
    ensures forall u :: u in us <==> exists i :: 0 <= i < |rs| && ActiveAt(rs[i], rid) && rs[i].user == u
    decreases |rs|
  {
    if rs == [] then []
    else
      var init, last := rs[..|rs| - 1], rs[|rs| - 1];
      assert forall i :: 0 <= i < |init| ==> init[i] == rs[i];
      ActiveUsers(init, rid) + (if ActiveAt(last, rid) then [last.user] else [])
  }

  /** The loop over `retreat.reservations.filter(is_active=True)`. */
  method Attendees(rs: seq<Reservation>, rid: RetreatId) returns (us: seq<UserId>)
    ensures us == ActiveUsers(rs, rid)
  {
    us := [];
    for i := 0 to |rs|
      invariant us == ActiveUsers(rs[..i], rid)
    {
      assert rs[..i + 1][..i] == rs[..i];
      if ActiveAt(rs[i], rid) {
        us := us + [rs[i].user];
      }
    }
    assert rs[..|rs|] == rs;
  }

  predicate TooEarlyToRemind(start: Time, now: Time)
  {
    now < start - REMIND_WINDOW
  }

  predicate TooEarlyToRecap(end: Time, now: Time)
  {
    now < end - RECAP_WINDOW
  }

  /**
   * `remind_users`: more than 8 days before the start nothing is sent;
   * otherwise every active reservation's user gets the reminder, and the
   * reply tells the scheduler to stop.
   */
  method RemindUsers(db: Database, rid: RetreatId, now: Time)
    returns (result: Result<Reply, Error>, recipients: seq<UserId>)
    ensures rid >= |db.retreats| ==> result == Err(NotFound) && recipients == []
    ensures rid < |db.retreats| && TooEarlyToRemind(db.retreats[rid].startTime, now) ==>
      result == Ok(Reply(200, Some(REMIND_TOO_EARLY), false)) && recipients == []
    ensures rid < |db.retreats| && !TooEarlyToRemind(db.retreats[rid].startTime, now) ==>
      result == Ok(Reply(200, None, true)) && recipients == ActiveUsers(db.reservations, rid)
  {
    if rid >= |db.retreats| {
      return Err(NotFound), [];
    }
    if TooEarlyToRemind(db.retreats[rid].startTime, now) {
      return Ok(Reply(200, Some(REMIND_TOO_EARLY), false)), [];
    }
    recipients := Attendees(db.reservations, rid);
    result := Ok(Reply(200, None, true));
  }

  /**
   * `recap`: more than 1 day before the end nothing is sent; otherwise every
   * active reservation's user gets the recap, and the reply says stop.
   */
  method Recap(db: Database, rid: RetreatId, now: Time)
    returns (result: Result<Reply, Error>, recipients: seq<UserId>)
    ensures rid >= |db.retreats| ==> result == Err(NotFound) && recipients == []
    ensures rid < |db.retreats| && TooEarlyToRecap(db.retreats[rid].endTime, now) ==>
      result == Ok(Reply(200, Some(RECAP_TOO_EARLY), false)) && recipients == []
    ensures rid < |db.retreats| && !TooEarlyToRecap(db.retreats[rid].endTime, now) ==>
      result == Ok(Reply(200, None, true)) && recipients == ActiveUsers(db.reservations, rid)
  {
    if rid >= |db.retreats| {
      return Err(NotFound), [];
    }
    if TooEarlyToRecap(db.retreats[rid].endTime, now) {
      return Ok(Reply(200, Some(RECAP_TOO_EARLY), false)), [];
    }
    recipients := Attendees(db.reservations, rid);
    result := Ok(Reply(200, None, true));
  }

  // ---------------------------------------------------------------------
  // Wait-queue notifications

  /** The notifications the purge keeps: all but retreat `rid`'s older than `cutoff`. */
  function Fresh(rid: RetreatId, cutoff: Time): Notification -> bool
  {
    (n: Notification) => !(n.retreat == rid && n.createdAt < cutoff)
  }

  /** The test `retreat != rid` on a notification. */
  function OtherRetreat(rid: RetreatId): Notification -> bool
  {
    (n: Notification) => n.retreat != rid
  }

  /** The notifications of retreat `rid` created before `cutoff` are deleted. */
  function Purge(ns: seq<Notification>, rid: RetreatId, cutoff: Time): (r: seq<Notification>)
    ensures forall n :: n in r <==> n in ns && !(n.retreat == rid && n.createdAt < cutoff)
  {
    Filter(ns, Fresh(rid, cutoff))
  }

  /** The purge leaves every other retreat's notifications as they were, in order. */
  lemma PurgeKeepsOtherRetreats(ns: seq<Notification>, rid: RetreatId, cutoff: Time)
    ensures Filter(Purge(ns, rid, cutoff), OtherRetreat(rid)) == Filter(ns, OtherRetreat(rid))
  {
    FilterNarrower(ns, Fresh(rid, cutoff), OtherRetreat(rid));
  }

  /** Purging twice with the same cutoff is purging once. */
  lemma PurgeIdempotent(ns: seq<Notification>, rid: RetreatId, cutoff: Time)
    ensures Purge(Purge(ns, rid, cutoff), rid, cutoff) == Purge(ns, rid, cutoff)
  {
    var once := Purge(ns, rid, cutoff);
    FilterKeepsAll(once, Fresh(rid, cutoff));
  }

  /** Retreat `rid` notified someone less than 23h55m before `now`. */
  predicate Throttled(ns: seq<Notification>, rid: RetreatId, now: Time)
    ensures Throttled(ns, rid, now) ==> exists n :: n in ns && n.retreat == rid && now - n.createdAt < DAY
    ensures (forall n :: n in ns && n.retreat == rid ==> now - n.createdAt >= DAY) ==> !Throttled(ns, rid, now)
  {
    exists n :: n in ns && n.retreat == rid && n.createdAt > now - NOTIFY_THROTTLE
  }

  /**
   * With a notification lifetime of at least a day the purge never deletes a
   * notification recent enough to hold the throttle, so purging first does
   * not change the throttle's verdict.
   */
  lemma PurgeKeepsThrottle(ns: seq<Notification>, rid: RetreatId, now: Time, lifetimeDays: nat)
    requires lifetimeDays >= 1
    ensures Throttled(Purge(ns, rid, now - lifetimeDays * DAY), rid, now) <==> Throttled(ns, rid, now)
  {
    if Throttled(ns, rid, now) {
      var n :| n in ns && n.retreat == rid && n.createdAt > now - NOTIFY_THROTTLE;
      assert n in Purge(ns, rid, now - lifetimeDays * DAY);
    }
  }

  /** The reply of `notify` once the purge is done. */
  function NotifyReply(throttled: bool, notifiedSomeone: bool): (r: Reply)
    ensures r.status == 204 <==> !throttled && notifiedSomeone
    ensures r.status != 204 ==> r.status == 200 && r.detail.Some?
    ensures r.status == 204 ==> r.detail.None?
    ensures r.stop <==> !throttled && !notifiedSomeone
    ensures throttled ==> r.detail == Some(NOTIFIED_RECENTLY)
  {
    if throttled then Reply(200, Some(NOTIFIED_RECENTLY), false)
    else if !notifiedSomeone then Reply(200, Some(NO_RESERVED_SEATS), true)
    else Reply(204, None, false)
  }

  /**
   * `notify`: deletes this retreat's notifications older than the lifetime,
   * then hands the round to `notify_users` unless a notification younger
   * than 23h55m remains. `notifiedSomeone` is what `notify_users` answers;
   * `called` says whether it was called.
   */
  method Notify(db: Database, rid: RetreatId, now: Time, lifetimeDays: nat, notifiedSomeone: bool)
    returns (result: Result<Reply, Error>, called: bool)
    requires db.Valid()
    modifies db
    ensures db.Valid()
    ensures rid >= |old(db.retreats)| ==> result == Err(NotFound) && !called && unchanged(db)
    ensures rid < |old(db.retreats)| ==>
      && db.notifications == Purge(old(db.notifications), rid, now - lifetimeDays * DAY)
      && unchanged(db`retreats, db`reservations, db`orderLines, db`refunds, db`profiles, db`waitQueue)
      && called == !Throttled(db.notifications, rid, now)
      && result == Ok(NotifyReply(!called, notifiedSomeone))
      && (result.value.stop <==> called && !notifiedSomeone)
  {
    if rid >= |db.retreats| {
      return Err(NotFound), false;
    }
    db.notifications := Purge(db.notifications, rid, now - lifetimeDays * DAY);
    called := !Throttled(db.notifications, rid, now);
    result := Ok(NotifyReply(!called, called && notifiedSomeone));
  }

  // ---------------------------------------------------------------------
  // Reservations

  /**
   * `ReservationViewSet.update`: a full update is refused outright; a
   * partial update must name an existing reservation and retreat and pass
   * the field whitelist before the serializer's update runs.
   */
  method UpdateReservation(db: Database, pk: ReservationId, partial: bool, byStaff: bool, patch: Patch, now: Time,
                           tax: real, gateway: GatewayScript)
    returns (result: Result<ReservationId, Error>, request: Option<GatewayRequest>)
    requires db.Valid()
    modifies db
    ensures db.Valid()
    ensures result.Err? ==> unchanged(db)
    ensures !partial ==> result == Err(MethodNotAllowed) && request.None?
    ensures partial && pk >= |old(db.reservations)| ==> result == Err(NotFound) && request.None?
    ensures partial && pk < |old(db.reservations)| && patch.retreat.Some? && patch.retreat.value >= |old(db.retreats)| ==>
      result == Err(UnknownRetreat) && request.None?
    ensures partial && pk < |old(db.reservations)| && (patch.retreat.Some? ==> patch.retreat.value < |old(db.retreats)|)
            && !(patch.keys <= UPDATABLE_FIELDS) ==>
      result == Err(OnlyIsPresentAndRetreat) && request.None?
    ensures result.Ok? ==> partial && result.value == pk && patch.keys <= UPDATABLE_FIELDS
    ensures partial && pk < |old(db.reservations)| && (patch.retreat.Some? ==> patch.retreat.value < |old(db.retreats)|)
            && patch.keys <= UPDATABLE_FIELDS ==>
      Updated(old(db.Snapshot()), db.Snapshot(), pk, byStaff, patch, now, tax, gateway, result, request)
  {
    if !partial {
      return Err(MethodNotAllowed), None;
    }
    if pk >= |db.reservations| {
      return Err(NotFound), None;
    }
    if patch.retreat.Some? && patch.retreat.value >= |db.retreats| {
      return Err(UnknownRetreat), None;
    }
    var allowed := ValidatePartialUpdate(patch.keys);
    if allowed.Err? {
      return Err(allowed.error), None;
    }
    result, request := Update(db, pk, byStaff, patch, now, tax, gateway);
  }

  /** A reservation cancelled by its user at `now` with refund action `action`. */
  function Canceled(inst: Reservation, action: char, now: Time): (c: Reservation)
    ensures !c.isActive && c.cancelationReason == Some(REASON_USER)
    ensures c.cancelationAction == Some(action) && c.cancelationDate == Some(now)
    ensures c.user == inst.user && c.retreat == inst.retreat && c.orderLine == inst.orderLine
    ensures c.isPresent == inst.isPresent
  {
    inst.(isActive := false, cancelationReason := Some(REASON_USER), cancelationAction := Some(action),
          cancelationDate := Some(now))
  }

  /**
   * The reserved seats after a cancellation, given the places remaining read
   * once the reservation is inactive: one more seat is held for the wait
   * queue when seats are already held or exactly one place is now free.
   */
  function ReservedAfterCancel(reserved: nat, freeSeats: int): (n: nat)
    ensures n == reserved || n == reserved + 1
  {
    if reserved > 0 || freeSeats == 1 then reserved + 1 else reserved
  }

  /**
   * Because the places are read after the cancellation, the freed place goes
   * to the wait queue exactly when seats were already held or the retreat
   * was full before the cancellation.
   */
  lemma CancelHoldsSeatForQueue(r: Retreat, rs: seq<Reservation>, pk: ReservationId, action: char, now: Time)
    requires pk < |rs| && rs[pk].isActive
    ensures var rid := rs[pk].retreat;
      ReservedAfterCancel(r.reservedSeats, PlacesRemaining(r, rs[pk := Canceled(rs[pk], action, now)], rid))
        == if r.reservedSeats > 0 || PlacesRemaining(r, rs, rid) == 0 then r.reservedSeats + 1 else r.reservedSeats
  {
    CancelFreesOnePlace(r, rs, rs[pk].retreat, pk, Canceled(rs[pk], action, now));
  }

  /**
   * A cancellation never overbooks: when the active reservations and the
   * reserved seats fit in the retreat before, they still fit after.
   */
  lemma CancelKeepsCapacity(r: Retreat, rs: seq<Reservation>, pk: ReservationId, action: char, now: Time)
    requires pk < |rs| && rs[pk].isActive
    requires ActiveCount(rs, rs[pk].retreat) + r.reservedSeats <= r.seats
    ensures var rid := rs[pk].retreat;
      var after := rs[pk := Canceled(rs[pk], action, now)];
      ActiveCount(after, rid) + ReservedAfterCancel(r.reservedSeats, PlacesRemaining(r, after, rid)) <= r.seats
  {
    ActiveCountUpdate(rs, pk, Canceled(rs[pk], action, now), rs[pk].retreat);
  }

  /** A cancellation sends a refund only this far ahead, if the order is refundable. */
  predicate RefundDue(r: Retreat, inst: Reservation, now: Time, refundable: bool)
    ensures RefundDue(r, inst, now, refundable) ==> refundable && inst.orderLine.Some? && now <= r.startTime
  {
    RespectsMinimumDays(r.startTime, now, r.minDayRefund) && refundable && inst.orderLine.Some?
  }

  /**
   * `ReservationViewSet.destroy`: a soft cancel. An inactive reservation is
   * left alone and the request still succeeds. An active one on an order
   * line of several places is refused. Otherwise the reservation is refunded
   * when `RefundDue` (action 'R') or not (action 'N'), marked inactive, and
   * the retreat may hold one more seat for its wait queue. A refused refund
   * undoes everything. `refundable` and the gateway's answer are inputs.
   */
  method DestroyReservation(db: Database, pk: ReservationId, now: Time, refundable: bool, gateway: Gateway)
    returns (result: Result<(), Error>, refundAttempted: bool)
    requires db.Valid()
    modifies db
    ensures db.Valid()
    ensures result.Err? ==> unchanged(db)
    ensures pk >= |old(db.reservations)| ==> result == Err(NotFound) && !refundAttempted
    ensures pk < |old(db.reservations)| && !old(db.reservations)[pk].isActive ==>
      result == Ok(()) && !refundAttempted && unchanged(db)
    ensures pk < |old(db.reservations)| && old(db.reservations)[pk].isActive ==>
      var inst := old(db.reservations)[pk];
      var rid := inst.retreat;
      var r := old(db.retreats)[rid];
      var several := inst.orderLine.Some? && old(db.orderLines)[inst.orderLine.value].quantity > 1;
      var refund := RefundDue(r, inst, now, refundable);
      && (several ==> result == Err(QuantityAboveOne) && !refundAttempted)
      && (!several ==> refundAttempted == refund)
      && (!several && refund && gateway.Declined? ==>
            result == Err(if gateway.code == NOT_CHARGED_YET then NotChargedYet else PaymentFailed(gateway.code)))
      && (!several && !(refund && gateway.Declined?) ==>
            && result == Ok(())
            && db.reservations == old(db.reservations)[pk := Canceled(inst, if refund then ACTION_REFUNDED else ACTION_NOT_REFUNDED, now)]
            && db.retreats == old(db.retreats)[rid := r.(reservedSeats := ReservedAfterCancel(r.reservedSeats, PlacesRemaining(r, db.reservations, rid)))]
            && unchanged(db`orderLines, db`refunds, db`profiles, db`waitQueue, db`notifications))
  {
    if pk >= |db.reservations| {
      return Err(NotFound), false;
    }
    var inst := db.reservations[pk];
    if !inst.isActive {
      return Ok(()), false;
    }
    var rid := inst.retreat;
    var r := db.retreats[rid];
    if inst.orderLine.Some? && db.orderLines[inst.orderLine.value].quantity > 1 {
      return Err(QuantityAboveOne), false;
    }
    var action := ACTION_NOT_REFUNDED;
    refundAttempted := false;
    if RefundDue(r, inst, now, refundable) {
      refundAttempted := true;
      if gateway.Declined? {
        var failure := if gateway.code == NOT_CHARGED_YET then NotChargedYet else PaymentFailed(gateway.code);
        return Err(failure), true;
      }
      action := ACTION_REFUNDED;
    }
    var rs := db.reservations[pk := Canceled(inst, action, now)];
    var freeSeats := PlacesRemaining(r, rs, rid);
    db.reservations := rs;
    db.retreats := db.retreats[rid := r.(reservedSeats := ReservedAfterCancel(r.reservedSeats, freeSeats))];
    result := Ok(());
  }

  // ---------------------------------------------------------------------
  // Wait queue

  /** The position `list.index` finds: the first occurrence of `e` in `q`. */
  function IndexIn(q: seq<WaitEntry>, e: WaitEntry): (k: nat)
    requires e in q
    ensures k < |q| && q[k] == e
    ensures e !in q[..k]
    decreases |q|
  {
    if q[0] == e then 0
    else
      assert e in q[1..];
      var k := IndexIn(q[1..], e);
      assert q[..k + 1] == [q[0]] + q[1..][..k];
      k + 1
  }

  /** `list(queue).index(entry)`, a scan from the front. */
  method IndexOf(q: seq<WaitEntry>, e: WaitEntry) returns (k: nat)
    requires e in q
    ensures k == IndexIn(q, e)
  {
    k := 0;
    while q[k] != e
      invariant k <= IndexIn(q, e)
      decreases IndexIn(q, e) - k
    {
      k := k + 1;
    }
  }

  /** The test `id != id0` on a subscription. */
  function NotEntry(id: nat): WaitEntry -> bool
  {
    (e: WaitEntry) => e.id != id
  }

  /** The wait queue without subscription `id`. */
  function WithoutEntry(wq: seq<WaitEntry>, id: nat): (r: seq<WaitEntry>)
    ensures forall e :: e in r <==> e in wq && e.id != id
    ensures QueueWellFormed(wq) ==> QueueWellFormed(r)
  {
    FilterKeepsQueueWellFormed(wq, NotEntry(id));
    Filter(wq, NotEntry(id))
  }

  /**
   * Deleting a subscription cuts it out of its retreat's queue at its
   * position; every other subscription keeps its relative order.
   */
  lemma {:induction false} UnsubscribeCutsQueue(wq: seq<WaitEntry>, i: nat)
    requires QueueWellFormed(wq) && i < |wq|
    ensures var q := QueueOf(wq, wq[i].retreat);
      var k := IndexIn(q, wq[i]);
      QueueOf(WithoutEntry(wq, wq[i].id), wq[i].retreat) == q[..k] + q[k + 1..]
  {
    var e := wq[i];
    var q := QueueOf(wq, e.retreat);
    FilterCommute(wq, NotEntry(e.id), OfRetreat(e.retreat));
    var k := IndexIn(q, e);
    forall j | 0 <= j < |q|
      ensures NotEntry(e.id)(q[j]) <==> j != k
    {
      if j < k {
        assert q[j].id != q[k].id;
      } else if j > k {
        assert q[k].id != q[j].id;
      }
    }
    FilterDropsOne(q, k, NotEntry(e.id));
  }

  /** The notification cursor after the subscription at position `pos` leaves. */
  function CursorAfterRemoval(next: nat, pos: nat): (n: nat)
    ensures n <= next <= n + 1
    ensures n < next <==> pos < next
  {
    if pos < next then next - 1 else next
  }

  /**
   * The cursor keeps pointing at the same user: the one it pointed at before,
   * or, when that user is the one leaving, the user after them.
   */
  lemma CursorKeepsItsPlace(q: seq<WaitEntry>, pos: nat, next: nat)
    requires pos < |q|
    ensures var q' := q[..pos] + q[pos + 1..];
      var n := CursorAfterRemoval(next, pos);
      && (next <= |q| ==> n <= |q'|)
      && (next < |q| && next != pos ==> q'[n] == q[next])
      && (next == pos && next + 1 < |q| ==> q'[n] == q[next + 1])
      && (next <= |q| ==> q'[..n] == if pos < next then q[..pos] + q[pos + 1..next] else q[..next])
  {
  }

  /**
   * The state after subscription `e` leaves the wait queue: it is cut out of
   * its retreat's queue at its position, the retreat's notification cursor
   * steps back by one when that position was before it, and the user's
   * notifications for that retreat are gone.
   */
  ghost predicate Unsubscribed(retreats: seq<Retreat>, wq: seq<WaitEntry>, ns: seq<Notification>,
                               retreats': seq<Retreat>, wq': seq<WaitEntry>, ns': seq<Notification>, e: WaitEntry)
    requires e in wq && e.retreat < |retreats|
  {
    var q := QueueOf(wq, e.retreat);
    var pos := IndexIn(q, e);
    var r := retreats[e.retreat];
    && retreats' == retreats[e.retreat := r.(nextUserNotified := CursorAfterRemoval(r.nextUserNotified, pos))]
    && wq' == WithoutEntry(wq, e.id)
    && QueueOf(wq', e.retreat) == q[..pos] + q[pos + 1..]
    && ns' == WithoutUserNotifications(ns, e.user, e.retreat)
  }

  /** Subscription ids are unique, so an id names one entry. */
  lemma IdNamesOneEntry(wq: seq<WaitEntry>, i: nat)
    requires QueueWellFormed(wq) && i < |wq|
    ensures forall e :: e in wq && e.id == wq[i].id ==> e == wq[i]
  {
  }

  /** The effect of `DestroyWaitEntry` on the subscription at index `i`. */
  lemma UnsubscribeEffect(retreats: seq<Retreat>, wq: seq<WaitEntry>, ns: seq<Notification>, i: nat, pos: nat)
    requires QueueWellFormed(wq) && i < |wq| && wq[i].retreat < |retreats|
    requires pos == IndexIn(QueueOf(wq, wq[i].retreat), wq[i])
    ensures var e := wq[i];
      var r := retreats[e.retreat];
      Unsubscribed(retreats, wq, ns,
                   retreats[e.retreat := r.(nextUserNotified := CursorAfterRemoval(r.nextUserNotified, pos))],
                   WithoutEntry(wq, e.id), WithoutUserNotifications(ns, e.user, e.retreat), e)
  {
    UnsubscribeCutsQueue(wq, i);
  }

  /** Deletes the subscription at index `i` of the wait queue. */
  method Unsubscribe(db: Database, i: nat)
    requires db.Valid() && i < |db.waitQueue|
    modifies db
    ensures db.Valid()
    ensures Unsubscribed(old(db.retreats), old(db.waitQueue), old(db.notifications),
                         db.retreats, db.waitQueue, db.notifications, old(db.waitQueue)[i])
    ensures unchanged(db`reservations, db`orderLines, db`refunds, db`profiles)
  {
    var wq := db.waitQueue;
    var e := wq[i];
    var rid := e.retreat;
    var pos := IndexOf(QueueOf(wq, rid), e);
    var r := db.retreats[rid];
    UnsubscribeEffect(db.retreats, wq, db.notifications, i, pos);
    db.retreats := db.retreats[rid := r.(nextUserNotified := CursorAfterRemoval(r.nextUserNotified, pos))];
    db.notifications := WithoutUserNotifications(db.notifications, e.user, rid);
    db.waitQueue := WithoutEntry(wq, e.id);
  }

  /**
   * `WaitQueueViewSet.destroy`: the subscription leaves its retreat's queue;
   * when it sat before the notification cursor the cursor steps back by one;
   * and the notifications of that user for that retreat are deleted.
   */
  method DestroyWaitEntry(db: Database, id: nat) returns (result: Result<(), Error>)
    requires db.Valid()
    modifies db
    ensures db.Valid()
    ensures (forall e :: e in old(db.waitQueue) ==> e.id != id) ==> result == Err(NotFound) && unchanged(db)
    ensures forall e :: e in old(db.waitQueue) && e.id == id ==>
      && result == Ok(())
      && Unsubscribed(old(db.retreats), old(db.waitQueue), old(db.notifications),
                      db.retreats, db.waitQueue, db.notifications, e)
      && unchanged(db`reservations, db`orderLines, db`refunds, db`profiles)
  {
    if forall e :: e in db.waitQueue ==> e.id != id {
      return Err(NotFound);
    }
    var i :| 0 <= i < |db.waitQueue| && db.waitQueue[i].id == id;
    IdNamesOneEntry(db.waitQueue, i);
    Unsubscribe(db, i);
    result := Ok(());
  }
}
