# Retreat reservation bookkeeping, in Dafny

This project models the reservation bookkeeping of the retreat application:
- the serializer rules of `retirement/serializers.py`: places remaining, the
  refund-rate check, the overlap rule, the partial-update field whitelist and
  the exchange of a reservation for another retreat;
- the request handlers of `retirement/views.py` that guard or change that
  state: retreat soft-delete, `remind_users`, `notify`, `recap`, reservation
  update and cancellation, and unsubscribing from a wait queue.

The two source files name the event "retirement" and "retreat"; the model
has a single `Retreat` record.

## Layout

- `outcomes.dfy`: `Option` and `Result`.
- `seqs.dfy`: `Filter` and its lemmas. A queryset `.filter(...)` and a bulk
  `.delete()` are both filters that keep row order.
- `models.dfy`: the records and the `Database` class.
  - The records are `Retreat`, `Reservation`, `OrderLine`, `RefundRecord`,
    `WaitEntry` and `Notification`.
  - The `Database` class holds one `seq` per table; a row's id is its index.
  - Its `Valid()` invariant says three things. Every reservation names an
    existing retreat and, when it has one, an existing order line. Every wait
    entry names an existing retreat. The wait queue has distinct ids in
    `created_at` order. References from notifications, refund rows and order
    lines are not constrained.
  - `Snapshot()` is the value of all tables at once, so that a whole request
    can be specified as a relation between two snapshots (`Updated`).
  - The file also defines the active-reservation count, the wait queue of a
    retreat, and the error kinds.
- `money.dfy`: the exchange amount.
  - Python `Decimal` rounding is modelled: `round(x, 2)`, half to even.
  - `int(...)` drops the fraction.
- `serializers.dfy`: the serializer rules and `Update`, the exchange.
- `views.dfy`: the view actions.

### Conventions

- Prices are whole cents. Times are whole seconds.
- The tax rate and refund amounts are exact `real`s. The source builds the
  rate from the binary float `TAX_RATE` in two ways. The exchange amount uses
  `Decimal(TAX_RATE + 1)`, the exact value of the float sum; `1 + tax` in
  `ExchangeCents` stands for that value. The refund row of a dearer exchange
  uses `Decimal(TAX_RATE) + 1`, which can differ from it in the last bits;
  the model uses the same `1 + tax` for both.
- Each request is one all-or-nothing step.
  - A method computes on local copies and writes the `Database` only at the end.
  - Every error path leaves the database unchanged (`unchanged(db)`).
- The payment gateway is an input, listing one outcome per call: `Approved`
  or `Declined(code)`. Code 3406 ("not charged yet") gets its own error.
- These are also inputs: the answer of `notify_users`, the reservation's
  `refundable` flag, the current time `now`, and the notification lifetime
  in days.

### Source behaviour kept as written

- An exchange between equally priced retreats runs no availability check.
  The check only exists on the charge and refund paths.
- A cancellation reads `places_remaining` after the reservation is already
  inactive. One seat is held for the wait queue when seats were already held
  or when exactly one place is now free, that is, when the retreat was full
  before the cancellation (`CancelHoldsSeatForQueue`).
- Creating a reservation runs the overlap check with `exclude(**validated_data)`.
  This leaves out every row equal to the request on the fields the request
  gives, not only the new row (`MatchesRequest`).
- In the charge path, a charge whose `int(amount)` is 0 makes no gateway call.
  The next line then reads an unbound `charge_response`, which ends the
  request with a server error (`ServerError`). `ChargeNeverRoundsToZero` shows
  that this branch is unreachable when the tax rate is not negative.
- An exchange does not check that the reservation is active.

## Model

| member | source | states |
|---|---|---|
| Serializers.PlacesRemaining | retirement/serializers.py:122-126 | places remaining never exceed seats minus reserved seats, and are negative exactly when active reservations plus reserved seats exceed the seats (nothing clamps the value) |
| Serializers.BookingTakesOnePlace | retirement/serializers.py:122-126 | one more active reservation of a retreat lowers its places remaining by exactly one |
| Serializers.CancelFreesOnePlace | retirement/views.py:411-416 | deactivating an active reservation raises its retreat's places remaining by exactly one |
| Serializers.ValidateRefundRate | retirement/serializers.py:78-83 | a refund rate is accepted iff it is at most 100, and then returned unchanged; otherwise the refund-rate error |
| Serializers.SeatAvailable | retirement/serializers.py:457-461 | a user without a notification only passes when active reservations plus reserved seats leave a free seat; when no place remains the check passes iff seats are held and the user has a notification for that retreat |
| Serializers.FreePlaceKeepsCapacity | retirement/serializers.py:457-469 | a user without a wait-queue notification who passes the availability check books a free place: afterwards active reservations plus reserved seats still fit in the seats |
| Models.ActiveCount | retirement/serializers.py:125 | the number of active reservations of a retreat is at most the number of rows, and is zero iff no row is active on that retreat |
| Models.HasNotification | retirement/serializers.py:460-461 | the notification test holds iff some row of the notification table names this user and this retreat |
| Serializers.RespectsMinimumDays | retirement/serializers.py:350-352 | a deadline of `days` days before the start is kept only up to the start, strictly before it when `days` is positive, and with no days exactly up to the start |
| Serializers.MatchesRequest | retirement/serializers.py:311 | a row left out of the creation check always has the request's user, retreat and `is_active`; a request giving no other field leaves out every such row |
| Serializers.Overlaps | retirement/serializers.py:317 | `max(starts) < min(ends)` holds iff both intervals are non-empty and each starts before the other ends; back-to-back intervals never overlap |
| Serializers.OverlapsSymmetric | retirement/serializers.py:317 | the overlap test does not depend on which reservation comes first |
| Serializers.FindConflict | retirement/serializers.py:416-423 | the scan finds a conflict iff some non-excluded active reservation of the user overlaps the interval |
| Serializers.ValidateNewReservation | retirement/serializers.py:304-324 | a request carrying a payment or single-use token ends in a server error (`exclude` is given a field the model lacks); otherwise creation is refused, always with the overlap error, iff an active reservation of the same user overlaps the requested retreat and differs from the request on `is_active` (a required field) or on another field it gives (present, order line, cancellation reason, action or date) |
| Serializers.ValidatePartialUpdate | retirement/serializers.py:287-302 | a partial update is accepted iff every field it names is `is_present`, `retirement`, `payment_token` or `single_use_token`; otherwise the "Only is_present and retirement" error |
| Serializers.PriceDelta | retirement/serializers.py:353-370 | a charge is due iff the target costs more and a refund iff it costs less; the amount is positive and settling it from the old price gives the new price |
| Serializers.CheckExchange | retirement/serializers.py:343-382 | an exchange passes iff quantity ≤ 1, a dearer target comes with a token, the target differs and the exchange deadline holds; each failure gives its own error, in the source's order, and a pass gives the price delta |
| Money.RoundHalfEven | retirement/serializers.py:454 | the result is within one half of x, integers are kept, and a tie goes to the even neighbour |
| Money.Round2 | retirement/serializers.py:454 | `round(x, 2)` is within 0.005 of x, is a whole number of hundredths, keeps x when x already is one, and on a tie lands on an even number of hundredths |
| Money.Truncate | retirement/serializers.py:471-475 | `int(x)` rounds toward zero: the integer part of x, for either sign |
| Money.ExchangeCents | retirement/serializers.py:453-454 | the rounded amount (before `int`) is within 0.005 cent of the price difference with tax, `delta × (1 + TAX)`, is a whole number of hundredths of a cent, and a tie goes to the even neighbour; the amount sent is its `Truncate`, so up to 1.005 cent below the exact value |
| Money.ChargeNeverRoundsToZero | retirement/serializers.py:471-500 | with a non-negative tax rate, a price difference of at least one cent is charged at least one whole cent, so a charge is always attempted |
| Models.WithoutUserEntries | retirement/serializers.py:456-469 | deleting the user's subscriptions to the target keeps exactly the other subscriptions and keeps the queue well formed |
| Models.QueueOf | retirement/views.py:538-539 | a retreat's queue holds exactly the subscriptions to that retreat and is well formed when the whole queue is |
| Serializers.Presence | retirement/serializers.py:338-339 | a non-staff request never changes `is_present`; a staff request sets it when it gives a value and keeps it otherwise |
| Serializers.ExchangeVerdict | retirement/serializers.py:343-382 | a reservation without an order line ends in a server error, and only it does; a pass means quantity at most 1, a different retreat, the exchange deadline kept and the price delta between the two retreats |
| Serializers.RequestFor | retirement/serializers.py:471-495 | a gateway request is made iff the prices differ; it is a charge iff the target is dearer; with a non-negative tax a difference of a cent or more asks for at least one cent |
| Serializers.SentCents | retirement/serializers.py:471-475 | with a non-negative tax a difference of at least one cent sends at least one whole cent |
| Serializers.RefundFailure | retirement/serializers.py:586-595 | a declined refund gives "not charged yet" iff its code is 3406, and otherwise the payment error with the gateway's code |
| Serializers.Moved | retirement/serializers.py:648-651 | the reservation keeps its user, activity and cancellation fields, moves to the target with the new presence flag, and takes the new order line iff the target is dearer |
| Serializers.ExchangedCopy | retirement/serializers.py:641-644 | the copy left on the old retreat is inactive, with reason 'U', action 'E' and the exchange time as cancellation date, and keeps the user, retreat, order line and presence flag |
| Serializers.ExchangeRefunds | retirement/serializers.py:440-451 | one refund row on the reservation's order line iff money moves: the whole old price with tax for a dearer target, the difference with tax (within half a hundredth of a cent) for a cheaper one |
| Serializers.ProfilesAfter | retirement/serializers.py:383-403 | a payment profile is added for the user, and only for them, iff a dearer exchange gives a single-use token |
| Serializers.ExchangeMovesOnePlace | retirement/serializers.py:641-651 | in the state an exchange of an active reservation leaves (`ExchangeState`), its old retreat has one more place remaining, the target one fewer, and every other retreat the same number |
| Serializers.DeclinedCallFails | retirement/serializers.py:471-496 | with a free seat and a non-negative tax the gateway is always reached: a declined charge fails with the charge's code, and a declined refund with "not charged yet" for 3406 or the refund's code otherwise |
| Serializers.ApplyExchange | retirement/serializers.py:425-651 | `Settled`: with no seat (when money moves) the no-places error before any gateway call; with a seat, a non-negative tax and (for a charge from a single-use token) the card added, the request sent is the balance with tax; a declined charge, card or refund fails with that call's code ("not charged yet" for refund code 3406); success implies every call made was approved, and every call approved with a seat and a non-negative tax implies success; no server error with a non-negative tax; on success `ExchangeState`: the id re-pointed, the inactive copy appended, the user's wait entries for the target deleted, the order line, refund rows and profile recorded |
| Serializers.Update | retirement/serializers.py:327-709 | `Updated`: a failure leaves every table as it was; without a retreat only `is_present` changes, and only for staff; otherwise the ladder, then the profile creation (a declined one fails with its code), the overlap check with the reservation itself excluded, then `Settled`; success returns the original id and leaves `ExchangeState` |
| Views.DestroyRetreat | retirement/views.py:80-85 | a retreat is only marked inactive; deleting an inactive retreat changes nothing |
| Views.ActiveUsers | retirement/views.py:104-105 | one recipient per active reservation of the retreat, and exactly the users of those reservations |
| Views.Attendees | retirement/views.py:104-105 | the loop collects exactly `ActiveUsers` |
| Views.RemindUsers | retirement/views.py:87-110 | more than 8 days before the start: the "more than 8 days" reply and nobody reminded; otherwise every active reservation's user is reminded and the reply says stop |
| Views.Recap | retirement/views.py:165-188 | more than 1 day before the end: the "more than 1 day" reply and nobody written to; otherwise every active reservation's user gets the recap and the reply says stop |
| Views.Throttled | retirement/views.py:143-144 | a throttled retreat has a notification younger than one day; one whose notifications are all a day old or older is not throttled |
| Views.NotifyReply | retirement/views.py:150-163 | 204 with no detail iff not throttled and someone was notified; otherwise 200 with a detail, "less than 24h ago" when throttled; stop iff not throttled and nobody was notified |
| Views.Purge | retirement/views.py:133-141 | exactly the notifications of this retreat created before the cutoff are deleted |
| Views.PurgeKeepsOtherRetreats | retirement/views.py:133-141 | the purge leaves the notifications of every other retreat as they were, in order |
| Views.PurgeIdempotent | retirement/views.py:133-141 | purging twice with one cutoff is purging once |
| Views.PurgeKeepsThrottle | retirement/views.py:126-148 | with a lifetime of at least one day the purge never changes whether a notification younger than 23h55m exists |
| Views.Notify | retirement/views.py:112-163 | the purge always happens; `notify_users` is called iff no notification of the retreat is younger than 23h55m; the reply is "less than 24h ago", "No reserved seats." with stop, or 204, accordingly |
| Views.UpdateReservation | retirement/views.py:331-334 | a full update is always refused with 405; a partial update of an unknown reservation or retreat, or one naming a field outside the whitelist, is refused and changes nothing; any other partial update has the whole effect `Updated` of `Update` |
| Views.Canceled | retirement/views.py:407-414 | a cancelled reservation is inactive with reason 'U', the chosen action and the cancellation date, and keeps its other fields |
| Views.ReservedAfterCancel | retirement/views.py:416-418 | the reserved seats grow by at most one |
| Views.CancelHoldsSeatForQueue | retirement/views.py:411-418 | after a cancellation the reserved seats grow by exactly one iff seats were already held or the retreat was full before the cancellation; otherwise they are unchanged |
| Views.RefundDue | retirement/views.py:369-371 | a refund is only due for a refundable reservation with an order line, and never once the retreat has started |
| Views.CancelKeepsCapacity | retirement/views.py:411-418 | when active reservations plus reserved seats fit in the seats before a cancellation, they still fit after it |
| Views.DestroyReservation | retirement/views.py:336-442 | unknown reservation: not found; inactive: success with nothing changed; several places on the order line: refused; a refund is attempted iff the refund deadline holds, the order line exists and the reservation is refundable; a refused refund ("not charged yet" for 3406) undoes everything; otherwise the reservation is cancelled with 'R' or 'N' and the reserved seats follow `ReservedAfterCancel` |
| Views.IndexIn | retirement/views.py:541 | the position found holds the subscription and no earlier position does |
| Views.IndexOf | retirement/views.py:541 | the scan returns the position of `IndexIn` |
| Views.WithoutEntry | retirement/views.py:552 | deleting a subscription keeps exactly the others and keeps the queue well formed |
| Views.UnsubscribeCutsQueue | retirement/views.py:535-552 | deleting a subscription cuts it out of its retreat's queue at its position; the rest keep their order |
| Views.CursorAfterRemoval | retirement/views.py:543-545 | the cursor steps back by one iff the leaving subscription sat before it, and otherwise stays |
| Views.CursorKeepsItsPlace | retirement/views.py:543-545 | the adjusted cursor points at the same next user as before, or at the following one when the user pointed at leaves; the users already notified stay before it |
| Models.WithoutUserNotifications | retirement/views.py:548-550 | exactly the notifications of other users or other retreats remain, so the user holds none for the retreat afterwards |
| Views.Unsubscribe | retirement/views.py:538-552 | the subscription is cut out of its queue, the cursor steps back iff its position was before the cursor, and that user's notifications for the retreat are deleted |
| Views.DestroyWaitEntry | retirement/views.py:535-552 | an unknown id is not found and changes nothing; otherwise the subscription with that id is removed as in `Unsubscribed` |

## Left out

- E-mail rendering and sending: the reminder, recap, exchange, order and
  refund confirmation mails, and `send_refund_confirmation_email`. The
  reminder and recap recipients are returned instead.
- The payment gateway calls. These are `charge_payment`, `refund_amount`,
  `create_external_payment_profile` and `create_external_card`.
  - Each is one input outcome.
  - The remote side effects are not modelled. For example, a payment profile
    created remotely before a later failure stays created.
- The `Order` row created by a dearer exchange, and the fields copied from
  the gateway's charge response. Only the new order line is modelled.
- Views.DestroyReservation: `Reservation.make_refund` is not part of this
  model. Its refund amount and the `Refund` row it writes are left out; only
  whether it succeeds is an input.
- Views.Notify: `Retreat.notify_users` is not part of this model. Its writes
  are left out: the notifications it creates, the cursor and reserved seats.
  Its answer is an input.
- `notify_scheduler_waite_queue` and URL building are left out.
- The model treats the retreat's `total_reservations` and `places_remaining`
  properties as the serializer's formula. These are model code that is not
  part of this model.
- Views.UpdateReservation: only the errors DRF raises for an unknown
  reservation or retreat are modelled. The other errors of its field
  validation and its permissions are left out. Which reservations a user may
  see is also left out.
- Serializers.ValidateNewReservation: a request naming a retreat that does
  not exist is refused by DRF's field validation before `validate` runs; the
  model takes the retreat as existing and leaves that error out. Keys that
  are not serializer fields, and read-only fields, are dropped by DRF before
  validation, so a request is modelled by its writable fields only.
- Serializers.Update: a patch's `keys` are not tied to its `isPresent`,
  `retreat` and token values. DRF builds both from one request, so the model
  also admits patches the source never produces, such as a retreat given
  while `keys` is empty. Every contract holds for those as well.
- Query visibility for non-staff users is left out: hidden and inactive
  retreats, and other users' reservations.
- The XLS export actions are left out.
- Hyperlinked representations, translations and the required-translation
  checks of the retreat serializer are left out.
- Concurrency, database locking and timezone localisation are left out.
- Each request reads the clock once. The source calls `timezone.now()` more
  than once within a request.
- Order creation, coupons and pricing are left out.
- The model assumes ties in `created_at` order are broken consistently: the
  wait queue is one sequence sorted by creation time.
