# Verified model of the booking core

Dafny models of the parts of the API in which concurrent commands, clocks and retries meet:
bookings with their payments, refunds and reservations; the outlet queue; the idempotency
protocol and its canonical printer; schedules, slots and the check made at booking; refresh-token
families; and the in-memory rate limiter. `dafny verify dfyconfig.toml` checks everything.

## How the model is built

**Booking, payment, refund and queue machine.** `Rows` holds the tables as one map per table.
`PaymentTransactions` and `QueueTransactions` give, for each `$transaction` of the services, the
tables it leaves and its answer; a value that the caller read before the transaction is an argument,
so it may be stale. `Machine` puts these together: a world is the tables plus the commands in
flight, each with its own program counter and remembered read, and an event is one transaction, one
first read, one further step of a command in flight, or a crash. A run is any finite sequence of
events from empty tables, so a statement about every run covers every interleaving. `Invariants`
says what every committed state satisfies and how rows may change between commits; `TableProofs`,
`BookingProofs`, `RefundProofs`, `QueueProofs` and `MachineProofs` show that every step keeps it and
that what a delayed command remembers stays true enough; `Guarantees` and `QueueOrder` draw the
conclusions, `Assumptions` shows exactly what they ask of clients, and `NoShow` what they ask of the no-show
command. `Effects` says of
each transaction, field by field and without the step functions, when it succeeds, which refusal every
other case gives, what rows it leaves and that nothing else changes. `Store` is the same code in its own form: an object that holds the tables, with one
method per transaction that updates row after row, the sweeps as loops, each method proved to leave
exactly the tables the machine steps to, and to have those effects.

**Idempotency.** `Idempotency` lets any number of callers claim a key, take a claim over, run,
record, delete and crash, with one clock. How late a live caller may still record, and whether a record
may get through without its caller learning so, are parameters, and safety is proved equivalent to a
condition on them. `CanonicalJson` models
`stableStringify` over UTF-16 code units, with strings quoted as in section 7 of RFC 8259, and the
text that is hashed into a fingerprint. The protocol treats a fingerprint as an opaque number.

**Schedules.** `TimeOfDay` and `Ranges` (both in `Slots.dfy`), `Schedules` and `Availability` follow
`slots.ts`, the row builders and range readers of `schedules.service.ts`, and the time checks of
`bookings.service.ts`. Instants are milliseconds, dates are day numbers and Jakarta is a fixed
offset of 420 minutes.

**Tokens and limiter.** `TokenFamilies` and `RateLimit` are classes over one map each, proved against
step functions whose runs carry the main results.

## Hypotheses

- Each transaction is one atomic step, and so is each statement outside a transaction. Refresh,
  logout and password-reset transactions of one token family do not overlap.
- Constraints of the migrations are steps that are refused: primary keys, the reservation exclusion
  constraint, one queue entry per booking, one called entry per outlet and date, one in-service entry
  per staff member, one event per provider event id, positive refund amounts, start before end.
- A queue command carries a version that its entry had already reached when the command read it.
  `QueueSoundExactly` shows that the queue is sound in all runs exactly under this assumption, and
  `GuessedVersionRun` gives a run from empty tables in which a client sends the next version.
- The reason code of a requested or cancellation refund is any text. Only whether it is `late_payment`
  matters; a run may use that code wherever a client chooses.
- `markNoShowBooking` checks and writes in one step. The code does not do this; `NoShow` splits the
  command and proves that the tables stay sound throughout a run exactly when every such write finds its
  booking still confirmed (`SoundExactlyWhenTimely`), that such a run leaves the tables of a run with
  one-step no-shows (`TimelyIsOneStep`), and that consistency in all runs is equivalent to this hypothesis
  (`ConsistentExactly`).
- Money is a non-negative integer. A refund row lives in its payment and is named by its position. A
  provider reference is modelled as the payment it names together with a flag that it was stored.
- Lists that a sweep queried earlier are arguments and may be out of date. The provider's answers,
  new ids, clocks and amounts chosen by policies are arguments too.
- Numbers inside a JSON value are given by the text `JSON.stringify` prints for them.

## Where code and documentation differ

The models follow the code, apart from the hypotheses above.

- `markNoShowBooking` reads the booking outside its transaction and then writes without a guard on its
  status. A check-in that commits in between leaves a waiting entry whose booking is a no-show, and the
  consistency job counts it (`CheckedInNoShowRun`). So the one-step hypothesis is an assumption about
  timing, not something the code ensures.
- The reuse branch of `refresh` locks the presented session only. A refresh of the active session that
  commits between finding and closing the family's sessions leaves its new session active
  (`SnapshotReuseRun`); `SnapshotReuseExactly` says when reuse still ends the family.

- `docs/backend/realtime-queue.md` accepts gaps in queue numbers after a rollback. The counter is
  written in the transaction that inserts the entry, so there are none (`QueueNumbersExact`).
- The consistency job counts as blocking only four of the six statuses of the booking policy: it
  leaves out waiting and called. `ConsistencyCountersZero` is about the job's own list,
  `ReservationExactlyWhileBlocking` about the policy's.
- The comment on `subtractRanges` promises a sorted result for any base. `SubtractUnsorted` is an input
  for which it is not, and `SubtractSortedExactly` gives the exact condition; validated periods meet it.
- `refundLatePayment` finds an earlier late refund by the reason code `late_payment`, which clients may
  send as well. So the code does not tell late refunds apart (`LateCodeExactly`), but the check is
  harmless all the same (`LateCheckHarmless`).
- An idempotency record that got through although its caller saw it fail is deleted by that caller's
  clean-up, possibly after another caller has replayed it (`LostAckRun`).
- The availability listing applies the lead time only to today's slots, while booking applies it to
  every date; and with a lead time of zero a slot that starts this very moment is listed as available
  although booking calls it past. `AvailableIsBookable` says exactly which listed slots can be refused;
  `ShortLeadIsShown` and `PresentSlotIsShown` are such slots.
- The branch of `applyTransition` that honours a late success cannot be reached
  (`LateSuccessNeverHonoured`).

## Model

| member | source | states |
|---|---|---|
| Guarantees.ConsistencyCountersZero | apps/api/src/modules/bookings/consistency-check.job.ts:57-110 | In every run with one-step no-shows the job's counters of orphan reservations, missing reservations and queue mismatches are zero at every commit |
| Guarantees.ReservationExactlyWhileBlocking | apps/api/src/modules/bookings/domain/booking-status.policy.ts:21-28 | In every run a reservation exists exactly for the scheduled bookings in a blocking status; a walk-in never has one |
| Guarantees.NoDoubleBooking | apps/api/src/modules/bookings/bookings.service.ts:240-342 | In every run two blocking scheduled bookings of one staff member never overlap as half-open intervals |
| Guarantees.BookingAcceptedExactly | apps/api/src/modules/bookings/bookings.service.ts:240-317 | In every reachable state a booking with fresh ids is created exactly when the customer has fewer than three blocking bookings at the business and no blocking booking of the staff member overlaps it |
| Guarantees.ActiveLimitHolds | apps/api/src/modules/bookings/bookings.service.ts:241-254 | In every run no customer has more than three blocking bookings at one business |
| Guarantees.OnlineBookingMirrorsPayment | apps/api/src/modules/bookings/payment-transition.service.ts:114-255 | In every run an online booking has exactly one online payment; it is pending_payment exactly while that payment is pending, is confirmed or later only with the money collected, and expires only with the payment lost |
| Guarantees.LateSuccessNeverHonoured | apps/api/src/modules/bookings/payment-transition.service.ts:129-158 | In every reachable state the condition for honouring a late success is false for a payment that cannot become paid |
| Guarantees.LateSuccessIsRefunded | apps/api/src/modules/bookings/refunds.service.ts:118-151 | From every reachable state a paid event for a lost payment without refunds, followed by its caller's own steps and a confirming provider, ends with one settled refund of the full amount and every other row unchanged |
| Guarantees.PaidAtMostOnce | apps/api/src/modules/bookings/payment-transition.service.ts:39-112 | However provider events repeat and interleave, a payment becomes paid at most once in a run |
| Guarantees.LateRefundAtMostOnce | apps/api/src/modules/bookings/refunds.service.ts:118-151 | Whatever reason codes clients send, a payment with an automatic late refund has exactly that one refund, for its full amount, and is lost, although the existence check runs outside any lock |
| Guarantees.LateRefundExcludesCollection | apps/api/src/modules/bookings/refunds.service.ts:118-151 | A payment that has an automatic late refund at one moment of a run is collected at no moment of that run |
| Assumptions.LateCheckHarmless | apps/api/src/modules/bookings/refunds.service.ts:124-127 | Where the existence check finds a refund with the late_payment code, whoever sent it, a late refund of the flagged payment would be refused then and at every later moment of the run |
| Assumptions.LateCodeExactly | apps/api/src/modules/bookings/refunds.service.ts:103-108 | Every refund with the late_payment code is the only, full refund of a lost payment in all runs exactly when no client may send that code |
| Assumptions.CodedRequestRun | apps/api/src/modules/bookings/dto/booking.dto.ts:134-147 | A run from empty tables in which a requested partial refund of a paid booking carries the late_payment code |
| RefundProofs.LateRefundOpensExactly | apps/api/src/modules/bookings/refunds.service.ts:225-245 | A flagged payment gets a late refund exactly when it has no refund yet and a positive amount |
| Guarantees.FateIsSealed | apps/api/src/modules/bookings/domain/payment-status.policy.ts:16-29 | A failed, expired or cancelled payment keeps its status for the rest of every run, and collected money stays collected |
| Guarantees.PaymentChangesAreEdges | apps/api/src/modules/bookings/domain/payment-status.policy.ts:16-29 | In every run each change of a payment status is an edge of the transition table |
| Guarantees.StatusMirrorsRefunds | apps/api/src/modules/bookings/domain/payment-status.policy.ts:49-59 | In every run the status of a collected payment equals the aggregate of its refund rows at every commit |
| Guarantees.RefundsWithinAmount | apps/api/src/modules/bookings/refunds.service.ts:225-245 | In every run completed plus pending refunds never exceed the payment's amount, and at most one refund is pending |
| Guarantees.BookingMirrorsEntry | apps/api/src/modules/bookings/queue/domain/queue-status.policy.ts:49-61 | In every run with one-step no-shows the booking of a queue entry has the status its entry maps to, and no second entry |
| NoShow.WriteKeepsExactly | apps/api/src/modules/bookings/queue/queue-commands.service.ts:670-680 | The unguarded no-show write keeps the tables sound exactly when the booking is still confirmed; otherwise its history is no path |
| NoShow.SoundExactlyWhenTimely | apps/api/src/modules/bookings/queue/queue-commands.service.ts:666-687 | With any steps between the read and the write of a no-show, the tables are sound throughout a run exactly when every write finds its booking still confirmed |
| NoShow.TimelyIsOneStep | apps/api/src/modules/bookings/queue/queue-commands.service.ts:666-687 | A run whose no-show writes all find their bookings confirmed leaves exactly the tables of some run with one-step no-shows |
| NoShow.ConsistentExactly | apps/api/src/modules/bookings/consistency-check.job.ts:57-110 | The job's three counters are zero and bookings mirror their entries in all runs exactly when the no-show is one step |
| NoShow.CheckedInNoShowRun | apps/api/src/modules/bookings/queue/queue-commands.service.ts:666-687 | A run from empty tables: book, read for a no-show, check in, write; the job then counts a queue mismatch |
| Guarantees.CommandsChangeWhatTheyRead | apps/api/src/modules/bookings/queue/queue-commands.service.ts:793-866 | A queue command in flight, however stale its read, commits only on the entry it read, along an edge of the queue table or as a recall, with the booking following; its booking transition is never refused |
| Assumptions.QueueSoundExactly | apps/api/src/modules/bookings/queue/queue-commands.service.ts:793-866 | In all runs every entry has a sound history and a mirroring booking and every command in flight commits only on the row it read, exactly when clients send no version past the one their command reads |
| Assumptions.GuessedVersionRun | apps/api/src/modules/bookings/queue/queue-commands.service.ts:814-830 | A run from empty tables in which a start-service with the next version commits on an entry that was skipped since the read |
| Guarantees.CheckInAcceptedExactly | apps/api/src/modules/bookings/queue/queue.service.ts:111-193 | In every reachable state a check-in with a fresh id succeeds exactly for a confirmed scheduled booking; the one-entry index never stops it |
| Guarantees.QueueNumbersExact | apps/api/src/modules/bookings/queue/queue-support.ts:23-37 | In every run the numbers of an outlet's queue on a date are exactly 1 to last_number, each used once |
| Guarantees.BookingHistoryIsPath | apps/api/src/modules/bookings/queue/queue-support.ts:83-158 | In every run with one-step no-shows a booking's history is a path in the booking table that ends at its status |
| Guarantees.QueueHistoryIsPath | apps/api/src/modules/bookings/queue/queue-support.ts:55-81 | In every run an entry's history is a path in the queue table, recalls being loops, that ends at its status and is as long as its version |
| Guarantees.HistoriesGrow | apps/api/src/modules/bookings/domain/booking-status.policy.ts:30-54 | A booking's history only grows along a run with one-step no-shows, and a booking in a terminal status never changes again |
| MachineProofs.RunKeeps | apps/api/src/modules/bookings/consistency-check.job.ts:57-110 | Every world that any run reaches satisfies all table invariants, and every command in flight is still sound |
| MachineProofs.FlightSurvives | apps/api/src/modules/bookings/refunds.service.ts:210-275 | What a command remembers from its read stays sound across any step of anyone else |
| MachineProofs.LateSuccessReady | apps/api/src/modules/bookings/payment-transition.service.ts:129-158 | A late success is flagged only for a payment that is lost or already has money held by refunds |
| MachineProofs.SweepFlagSafe | apps/api/src/modules/bookings/refunds.service.ts:283-305 | The skip flag that reconciliation computes outside the lock is right: a skipped pending refund belongs to a lost payment, an aggregated one to collected money |
| BookingProofs.CreateBookingKeeps | apps/api/src/modules/bookings/bookings.service.ts:240-317 | Booking creation keeps every invariant, whatever its outcome |
| BookingProofs.ApplyProviderEventKeeps | apps/api/src/modules/bookings/payment-transition.service.ts:39-255 | A provider event keeps every invariant and changes statuses along edges only |
| BookingProofs.ExpireOneKeeps | apps/api/src/modules/bookings/payment-expiration.job.ts:64-102 | Expiring a payment keeps every invariant |
| BookingProofs.CancelBookingKeeps | apps/api/src/modules/bookings/bookings.service.ts:611-668 | Cancelling from a stale but cancellable read keeps every invariant |
| BookingProofs.NoShowBookingKeeps | apps/api/src/modules/bookings/queue/queue-commands.service.ts:666-687 | Marking a booking as no-show that is confirmed when it is written keeps every invariant |
| BookingProofs.ConfirmReceiptKeeps | apps/api/src/modules/bookings/payments.service.ts:132-213 | Confirming a pay-at-location receipt keeps every invariant |
| RefundProofs.ExecuteRefundKeeps | apps/api/src/modules/bookings/refunds.service.ts:210-275 | A refund requested on a stale payment status keeps every invariant, and its settlement starts sound |
| RefundProofs.RequestedRefundOpens | apps/api/src/modules/bookings/refunds.service.ts:246-254 | When the re-checks under the lock pass, the locked status is one from which a refund may be requested, although the code tests the stale one |
| RefundProofs.LateRefundOpens | apps/api/src/modules/bookings/refunds.service.ts:124-151 | A late refund that passes the re-checks opens only on a lost payment without any refund |
| RefundProofs.RefundSettles | apps/api/src/modules/bookings/refunds.service.ts:332-362 | Settling writes the aggregate status along an edge, or keeps a lost payment's status, and keeps the accounting |
| RefundProofs.SettleKeeps | apps/api/src/modules/bookings/refunds.service.ts:307-362 | Settlement keeps every invariant |
| PaymentPolicy.HeldSplits | apps/api/src/modules/bookings/domain/payment-status.policy.ts:37-46 | Without a pending refund the money held is the money refunded |
| PaymentPolicy.SettledSums | apps/api/src/modules/bookings/domain/payment-status.policy.ts:37-46 | Settling a refund moves exactly its amount from pending to completed and keeps the total held |
| QueueProofs.StaleReadHarmless | apps/api/src/modules/bookings/queue/queue-commands.service.ts:793-866 | In every sound state the version guard makes a stale read harmless: a command that commits changes the very entry it read, along an edge, with its booking |
| QueueProofs.RunCommandKeeps | apps/api/src/modules/bookings/queue/queue-commands.service.ts:362-648 | Every versioned queue command keeps every invariant |
| QueueProofs.CheckInKeeps | apps/api/src/modules/bookings/queue/queue.service.ts:111-193 | Check-in, with its two history hops, keeps every invariant |
| QueueProofs.CreateWalkInKeeps | apps/api/src/modules/bookings/queue/queue-commands.service.ts:244-356 | Creating a walk-in keeps every invariant |
| QueueProofs.ReorderKeeps | apps/api/src/modules/bookings/queue/queue-commands.service.ts:714-787 | Reordering keeps every invariant |
| QueueOrder.QueueOrderTotal | apps/api/src/modules/bookings/queue/domain/queue-math.ts:31-44 | In every reachable state the queue order of an outlet's active entries is strictly total |
| QueueOrder.ListingExists | apps/api/src/modules/bookings/queue/queue-support.ts:193-202 | The ordered query has a result |
| QueueOrder.ListingUnique | apps/api/src/modules/bookings/queue/queue-support.ts:193-202 | The ordered query has at most one result |
| QueueOrder.PeopleAheadCounts | apps/api/src/modules/bookings/queue/domain/queue-math.ts:37-44 | People ahead is the number of waiting, called and in-service entries that come before in the order |
| QueueOrder.PeopleAheadPermutes | apps/api/src/modules/bookings/queue/domain/queue-math.ts:37-44 | The k entries that count get the values 0 to k-1, each once, in queue order |
| QueueOrder.ReorderAcceptsPermutations | apps/api/src/modules/bookings/queue/queue-commands.service.ts:724-756 | A reorder succeeds exactly with the current version and a permutation of the waiting and skipped entries |
| QueueOrder.ReorderAnswers | apps/api/src/modules/bookings/queue/queue-commands.service.ts:724-787 | Each answer of a reorder has its exact condition; a successful one gives the requested entries the sort keys 1, 2, … and advances the version, every other one changes nothing |
| QueueOrder.ReorderExact | apps/api/src/modules/bookings/queue/queue-commands.service.ts:732-756 | After a reorder those entries stand in exactly the requested order; every other entry is untouched |
| QueueOrder.ReturnGoesLast | apps/api/src/modules/bookings/queue/queue-commands.service.ts:472-515 | A returned entry stands strictly behind every other active entry |
| QueueOrder.ReturnPeopleAhead | apps/api/src/modules/bookings/queue/queue-commands.service.ts:486-504 | After a return to waiting, people-ahead of the returned entry is the number of all other entries that count |
| Effects.CreateBookingCreates | apps/api/src/modules/bookings/bookings.service.ts:240-332 | On sound tables each outcome occurs exactly under its literal condition; a created booking has the given customer, business, outlet, staff and time, the initial status and one history row, a reservation of that staff and time, and a pending payment of the given amount that expires at the given moment exactly when online; nothing else changes |
| Effects.ProviderEventApplies | apps/api/src/modules/bookings/payment-transition.service.ts:39-255 | On sound tables an event is processed exactly when it is new, names a pending online payment by its stored reference with the exact amount in rupiah, and reports something other than pending; paid collects it and confirms its booking in its slot, failed, expired and cancelled give that payment status, an expired booking and a free slot; every other outcome has its exact condition and logs at most the event |
| Effects.ExpireOneExpires | apps/api/src/modules/bookings/payment-expiration.job.ts:64-102 | On sound tables exactly a pending payment whose window is over expires, with its booking, and frees the slot; nothing else changes |
| Effects.CancelBookingCancels | apps/api/src/modules/bookings/bookings.service.ts:611-668 | Exactly a booking that is as it was read is cancelled; its slot is free, its pending payments and no others are cancelled, and nothing else changes |
| Effects.NoShowBookingMarks | apps/api/src/modules/bookings/queue/queue-commands.service.ts:666-687 | Uninterrupted, exactly a confirmed booking becomes a no-show and frees its slot; nothing else changes |
| Effects.ExecuteRefundOpens | apps/api/src/modules/bookings/refunds.service.ts:210-275 | On sound tables a refund opens exactly when none is pending and its positive amount is within the payment minus completed refunds; the row records that amount, origin and time, a requested one makes the payment refund_pending, and nothing else changes; each refusal has its exact condition |
| Effects.SettleSettles | apps/api/src/modules/bookings/refunds.service.ts:332-362 | On sound tables exactly the pending refund becomes refunded, and the payment is refunded in full or in part by the sum of what is refunded, unless its status is to be kept; nothing else changes |
| Effects.CheckInChecksIn | apps/api/src/modules/bookings/queue/queue.service.ts:111-193 | On sound tables exactly a confirmed scheduled booking waits in the queue of its outlet and that date, under its staff, with the next number, at version 1, with both history hops; each refusal has its exact condition |
| Effects.CreateWalkInWalksIn | apps/api/src/modules/bookings/queue/queue-commands.service.ts:244-356 | With new ids a walk-in waits at once without customer or slot, with the next number of its outlet and date, and owes the price at the location; nothing else changes |
| Effects.StoreReferenceRefers | apps/api/src/modules/bookings/bookings.service.ts:349-388 | Exactly an online payment is marked as referenced; nothing else changes |
| Effects.CommandCommands | apps/api/src/modules/bookings/queue/queue-commands.service.ts:362-648 | On sound tables each of the seven commands, on an entry as it stands, succeeds exactly under its literal status, staff and index conditions, with the refusal of every other case; the entry gets status, version, history row, staff and sort key as stated, its booking the matching status, completion and no-show free the slot, and nothing else changes |
| Guarantees.FreshCommandExactly | apps/api/src/modules/bookings/queue/queue-commands.service.ts:793-846 | The same holds in every reachable state for a command that has just read its entry, with the entry's version |
| Guarantees.FirstReadExactly | apps/api/src/modules/bookings/bookings.service.ts:599-609 | A cancellation, refund, sweep or queue command goes on after its first read exactly under its literal conditions, and remembers what it read |
| Guarantees.CancellationIsRefunded | apps/api/src/modules/bookings/refunds.service.ts:158-186 | From every reachable state in which a booking may be cancelled and its online payment is paid without refunds, the cancellation's own steps end with the booking cancelled and exactly the decided amount refunded, in full or in part |
| Store.Tables.CreateBooking | apps/api/src/modules/bookings/bookings.service.ts:240-332 | The transaction has the outcome and leaves the rows that `Effects.Creates` states field by field, and is the machine's step |
| Store.Tables.ApplyProviderEvent | apps/api/src/modules/bookings/payment-transition.service.ts:39-112 | The transaction has the outcome and leaves the rows that `Effects.Applies` states, amount and currency compared, and is the machine's step, a thrown error rolling everything back |
| Store.Tables.ApplyTransition | apps/api/src/modules/bookings/payment-transition.service.ts:114-213 | Row by row, it is the transition function of the machine |
| Store.Tables.ApplyPaid | apps/api/src/modules/bookings/payment-transition.service.ts:215-255 | The payment is paid and a booking that waited for it is confirmed |
| Store.Tables.ExpireOne | apps/api/src/modules/bookings/payment-expiration.job.ts:64-102 | The transaction expires exactly a due payment with its booking, as `Effects.Expires` states, and is the machine's step |
| Store.Tables.ExpireDue | apps/api/src/modules/bookings/payment-expiration.job.ts:42-62 | The sweep expires exactly the listed payments that are still due, counts each once, and keeps every invariant |
| Store.Tables.CancelBooking | apps/api/src/modules/bookings/bookings.service.ts:611-668 | The transaction cancels exactly an unchanged booking and its pending payments, as `Effects.Cancels` states, and is the machine's step |
| Store.Tables.ExecuteRefund | apps/api/src/modules/bookings/refunds.service.ts:210-275 | The transaction has the outcome and records the refund that `Effects.OpensRefund` states, and is the machine's step |
| Store.Tables.Settle | apps/api/src/modules/bookings/refunds.service.ts:332-362 | The transaction settles exactly the pending refund, as `Effects.Settles` states, and is the machine's step |
| Store.Tables.ReconcilePendingRefunds | apps/api/src/modules/bookings/refunds.service.ts:283-305 | Of the refunds the query looks at, exactly those that are pending, at least a minute old and confirmed by the provider get settled; they are counted, and every invariant is kept |
| Store.Tables.SweepRefunds | apps/api/src/modules/bookings/refunds.service.ts:291-304 | The loop over a list that may be out of date settles exactly the listed refunds the provider confirms, and counts the listed refunds that are settled when it looks again after its turn with each |
| Store.Tables.RefundLatePayment | apps/api/src/modules/bookings/refunds.service.ts:118-151 | Uninterrupted, it refunds the full amount of a flagged payment exactly when that payment has no refund yet and its amount is positive, and changes nothing else |
| Store.Tables.ReconcilePayments | apps/api/src/modules/bookings/payment-reconciliation.job.ts:68-105 | Whatever the provider reports, the sweep counts exactly the payments that leave pending, changes the status of no other payment, and keeps every invariant |
| Store.Tables.ConfirmReceipt | apps/api/src/modules/bookings/payments.service.ts:132-213 | Succeeds exactly for a pending pay-at-location payment, which becomes paid; no other payment changes |
| Store.Tables.AddReceipt | apps/api/src/modules/bookings/payments.service.ts:163-190 | Succeeds exactly for an existing booking, a new id and a positive amount, and adds one paid receipt of that amount; every payment there was is unchanged |
| Store.Tables.NextQueueNumber | apps/api/src/modules/bookings/queue/queue-support.ts:23-37 | The counter row is created at 1 or advanced by 1, with its version |
| Store.Tables.VersionedQueueUpdate | apps/api/src/modules/bookings/queue/queue-support.ts:174-186 | The entry changes exactly when its stored version is the expected one |
| Store.Tables.MaxSortOrder | apps/api/src/modules/bookings/queue/queue-commands.service.ts:486-504 | The result is the largest sort key of the given entries |
| Store.Tables.CheckIn | apps/api/src/modules/bookings/queue/queue.service.ts:111-193 | The transaction has the outcome and leaves the rows that `Effects.ChecksIn` states, and is the machine's step; a refused insert takes the counter back |
| Store.Tables.CreateWalkIn | apps/api/src/modules/bookings/queue/queue-commands.service.ts:190-356 | The transaction leaves the rows that `Effects.WalksIn` states, and is the machine's step |
| Store.Tables.Call | apps/api/src/modules/bookings/queue/queue-commands.service.ts:362-400 | On an entry as it stands the command answers and leaves what `Effects.Calls` states; on any read it is the machine's step |
| Store.Tables.Recall | apps/api/src/modules/bookings/queue/queue-commands.service.ts:402-438 | On an entry as it stands the command answers and leaves what `Effects.Recalls` states; on any read it is the machine's step |
| Store.Tables.Skip | apps/api/src/modules/bookings/queue/queue-commands.service.ts:440-470 | On an entry as it stands the command answers and leaves what `Effects.Skips` states; on any read it is the machine's step |
| Store.Tables.ReturnToWaiting | apps/api/src/modules/bookings/queue/queue-commands.service.ts:472-515 | On an entry as it stands the command answers and leaves what `Effects.Returns` states; on any read it is the machine's step |
| Store.Tables.StartService | apps/api/src/modules/bookings/queue/queue-commands.service.ts:517-561 | On an entry as it stands the command answers and leaves what `Effects.Starts` states; on any read it is the machine's step |
| Store.Tables.Complete | apps/api/src/modules/bookings/queue/queue-commands.service.ts:563-608 | On an entry as it stands the command answers and leaves what `Effects.Completes` states; on any read it is the machine's step |
| Store.Tables.MarkNoShowEntry | apps/api/src/modules/bookings/queue/queue-commands.service.ts:610-648 | On an entry as it stands the command answers and leaves what `Effects.EndsAbsent` states; on any read it is the machine's step |
| Store.Tables.WriteNoShow | apps/api/src/modules/bookings/queue/queue-commands.service.ts:670-680 | The transaction of a no-show leaves exactly the tables of the unguarded write that the machine steps with |
| Store.Tables.MarkNoShowBooking | apps/api/src/modules/bookings/queue/queue-commands.service.ts:666-687 | With nothing between its check and its write, exactly a confirmed booking becomes a no-show and frees its slot; it is the one-step no-show of the machine |
| Store.Tables.Reorder | apps/api/src/modules/bookings/queue/queue-commands.service.ts:714-787 | The transaction leaves exactly the tables and the outcome the machine steps with; invalid entries take the version bump back |
| Idempotency.SafeExactlyWithinTakeover | apps/api/src/modules/idempotency/idempotency.service.ts:61-159 | In all runs all final answers for one key agree in outcome and fingerprint and at most one caller executed, exactly when no live caller records later than the takeover time and none that can record takes a record that got through for a failed one |
| Idempotency.LostAckRun | apps/api/src/modules/idempotency/idempotency.service.ts:124-157 | A recorded outcome whose acknowledgement is lost is replayed, then deleted by the clean-up, and the key gets a second, different answer |
| Idempotency.SlowCallerRun | apps/api/src/modules/idempotency/idempotency.service.ts:112-121 | A caller that records one millisecond later than the takeover time gives its key a second, different answer |
| Idempotency.OneRunnerPerKey | apps/api/src/modules/idempotency/idempotency.service.ts:71-121 | In every run at most one live caller per key is running |
| Idempotency.FinalRowsNeverChange | apps/api/src/modules/idempotency/idempotency.service.ts:100-159 | In every run succeeded and failed_final rows never change and never disappear |
| Idempotency.AloneEnds | apps/api/src/modules/idempotency/idempotency.service.ts:61-159 | A caller alone in the protocol runs exactly when its key is free or the claim there looks dead, and then ends with the answer and the row that its operation's end calls for; otherwise it gets a final row's outcome or nothing, and changes no row |
| Idempotency.RepliesAreEarned | apps/api/src/modules/idempotency/idempotency.service.ts:100-159 | In every run each final answer is the recorded outcome of an operation run for its key, and an executed one is the outcome with which its own caller ended |
| Idempotency.FinalIsRecorded | apps/api/src/modules/idempotency/idempotency.service.ts:124-152 | In every run each final row holds the outcome of an operation that was run for its key |
| Idempotency.KeyTable.Execute | apps/api/src/modules/idempotency/idempotency.service.ts:61-159 | A call runs exactly when the key is free or its claim looks dead, otherwise answers from the row without writing; a recorded success returns its result, a recorded business failure its error, everything else throws, and in each case what stands under the key afterwards is stated; no other key changes |
| CanonicalJson.PrintDecidesEquality | apps/api/src/modules/idempotency/idempotency.service.ts:36-44 | Two values print to the same text exactly when they are equal after dropping undefined members and forgetting key order, for any nesting |
| CanonicalJson.SampleText | apps/api/src/modules/idempotency/idempotency.service.ts:36-44 | An object with a list, a string to escape and an undefined member prints as the expected text, keys in order |
| CanonicalJson.ParseUnique | apps/api/src/modules/idempotency/idempotency.service.ts:36-44 | Even with other text behind it, a printed value fixes its meaning and where it ends |
| CanonicalJson.SameText | apps/api/src/modules/idempotency/idempotency.service.ts:36-44 | Values that mean the same print to the same text |
| CanonicalJson.QuoteRoundTrip | apps/api/src/modules/idempotency/idempotency.service.ts:37-42 | A quoted string, whatever follows it, is read back with exactly the rest left over |
| CanonicalJson.SortedKeeps | apps/api/src/modules/idempotency/idempotency.service.ts:39-42 | Sorting the entries orders their keys strictly and keeps every entry |
| CanonicalJson.FingerprintDecidesRequest | apps/api/src/modules/idempotency/idempotency.service.ts:46-50 | Two requests give the same text to hash exactly when scope, action and the meaning of the payload agree, for scopes without a newline |
| TimeOfDay.TimeStringRoundTrip | apps/api/src/modules/schedules/slots.ts:18-27 | Every minute of a day prints as a valid HH:MM that reads back as that minute |
| TimeOfDay.MinutesRoundTrip | apps/api/src/modules/schedules/slots.ts:16-27 | Every valid HH:MM is printed again from its minutes |
| TimeOfDay.StoredTimeRoundTrip | apps/api/src/modules/schedules/slots.ts:29-36 | A minute stored as a database time is read back unchanged |
| TimeOfDay.WallClockRoundTrip | apps/api/src/modules/schedules/slots.ts:38-51 | The instant of a Jakarta date and minute shows that date and that minute in Jakarta |
| TimeOfDay.InstantRoundTrip | apps/api/src/modules/bookings/bookings.service.ts:74-77 | A whole-minute instant is the instant of the date and minute it shows |
| Ranges.SubtractExact | apps/api/src/modules/schedules/slots.ts:77-90 | For all inputs a minute is left exactly when it is in the base and in no cut |
| Ranges.SubtractRanges | apps/api/src/modules/schedules/slots.ts:77-90 | The loop computes the subtraction function, and with it exactly the minutes of the base in no cut |
| Ranges.SubtractSortedExactly | apps/api/src/modules/schedules/slots.ts:77-90 | For a base of non-empty ranges the result is sorted for every list of non-empty cuts exactly when no base range reaches three or more minutes past a later start |
| Ranges.SubtractUnsorted | apps/api/src/modules/schedules/slots.ts:77-90 | Taking minute 1 out of 0-3 and 0-1 gives 0-1, 2-3, 0-1 |
| Ranges.SubtractOfBreaks | apps/api/src/modules/schedules/schedules.service.ts:97-109 | With disjoint periods and disjoint breaks inside them, in any order, the result is sorted and disjoint and its length is the periods' minus the breaks' |
| Ranges.SortedSorts | apps/api/src/modules/schedules/slots.ts:70-79 | Sorting orders by start and permutes |
| Ranges.SortedStable | apps/api/src/modules/schedules/slots.ts:70-79 | Sorting keeps ranges with the same start in their order |
| Schedules.ValidatePeriods | apps/api/src/modules/schedules/slots.ts:59-75 | Refuses exactly the lists with a malformed or empty period, then exactly those in which two periods overlap; otherwise gives the typed ranges, sorted and disjoint |
| Schedules.FindParentFinds | apps/api/src/modules/schedules/schedules.service.ts:395-402 | A parent period is found exactly when some period holds the whole break, and then it holds it |
| Schedules.ScheduleLists.FillWeek | apps/api/src/modules/schedules/schedules.service.ts:231-258 | A week is refused for a repeated day or with the error of its first defect; otherwise every typed day reads back from the finished rows as exactly its periods and breaks, and every other day as none |
| Schedules.OtherDayGrows | apps/api/src/modules/schedules/schedules.service.ts:384-423 | Rows added for one day change nothing of what is read back for another |
| Schedules.ScheduleLists.AddDay | apps/api/src/modules/schedules/schedules.service.ts:384-423 | A typed day is refused with the error its first defect demands, or its rows read back as exactly its periods and breaks; rows are added for this day only |
| Schedules.ScheduleLists.AddBreaks | apps/api/src/modules/schedules/schedules.service.ts:395-408 | Succeeds exactly when every break lies inside a period, and then the breaks read back once each |
| Availability.OutletPeriodsElements | apps/api/src/modules/schedules/schedules.service.ts:331-338 | The opening periods of a weekday are those of its rows that are not closed, to the minute |
| Availability.StaffMinutes | apps/api/src/modules/schedules/schedules.service.ts:81-110 | For any rows a minute is available exactly when the outlet is assigned or none is, and the outlet is open if the staff has no rows, otherwise a period of the day holds it and no break |
| Availability.SavedDayOffered | apps/api/src/modules/schedules/schedules.service.ts:81-110 | An accepted staff day is offered as ordered disjoint ranges that cover its periods without its breaks, to the minute and in total length, in whatever order its rows are read |
| Availability.BuildSlots | apps/api/src/modules/schedules/slots.ts:115-135 | The nested loops give each period, in order of start, exactly floor(length / duration) slots, the k-th starting k durations after the period |
| Availability.GridElements | apps/api/src/modules/schedules/slots.ts:115-135 | A slot is in the grid exactly when it starts a whole number of durations after a period's start and ends within that period |
| Availability.SlotsInOrder | apps/api/src/modules/schedules/slots.ts:110-135 | Slots of disjoint opening periods have the service's length, are disjoint and increase |
| Availability.GetAvailability | apps/api/src/modules/schedules/schedules.service.ts:315-350 | Nothing for a date out of range, no slots for a closed date, otherwise the grid of the day's opening periods |
| Availability.ShownAvailableExactly | apps/api/src/modules/bookings/bookings.service.ts:430-458 | A grid time is shown available exactly when the schedule check made at booking accepts it and, for today, it is not before the lead cutoff |
| Availability.AvailableIsBookable | apps/api/src/modules/bookings/bookings.service.ts:192-214 | A slot shown available, parsed back from its text, passes every check at booking except that its lead time may be short on a later date, or that it starts this very moment with no lead time |
| Availability.ShortLeadIsShown | apps/api/src/modules/schedules/schedules.service.ts:345-348 | At 23:50 the slot at midnight is shown available although its lead time of an hour is not met at booking |
| Availability.PresentSlotIsShown | apps/api/src/modules/bookings/bookings.service.ts:197-200 | Without a lead time the slot that starts this very moment is shown available although booking calls it past |
| Availability.UnlistedDayOffersNothing | apps/api/src/modules/schedules/schedules.service.ts:255-258 | A day left out of a configured week offers nothing |
| Availability.BookableExactly | apps/api/src/modules/bookings/bookings.service.ts:192-214 | A requested time is accepted exactly when it is ahead by the lead time, within the horizon, on an open date, inside one opening row and inside one staff range; each refusal names the first of these that fails |
| Availability.BookableIsAvailable | apps/api/src/modules/bookings/bookings.service.ts:192-214 | An accepted time on the grid is shown available on its own date |
| TokenFamilies.RunKeeps | apps/api/src/modules/auth/auth.service.ts:151-232 | In every run each family is one parent chain that starts with the session it is named after and whose members are all rotated except the last |
| TokenFamilies.ChainUnique | apps/api/src/modules/auth/auth.service.ts:181-200 | The chain of a family is unique |
| TokenFamilies.OneActive | apps/api/src/modules/auth/auth.service.ts:151-232 | In every run at most one session of a family is active |
| TokenFamilies.ActiveIsLast | apps/api/src/modules/auth/auth.service.ts:166-200 | A family has an active session exactly when its last session is active |
| TokenFamilies.ReuseEndsFamily | apps/api/src/modules/auth/auth.service.ts:166-173 | Once a rotated token is presented, with the transactions of a family one after the other, no session of its family is active at any later time of any run |
| TokenFamilies.SnapshotReuseExactly | apps/api/src/modules/auth/auth.service.ts:155-173 | If other transactions commit between finding and closing the family's active sessions, reuse ends the family exactly when none of them added a session to it or it has no active session anyway |
| TokenFamilies.SnapshotReuseRun | apps/api/src/modules/auth/auth.service.ts:155-173 | A run from empty tables in which a refresh in between leaves the family an active session |
| TokenFamilies.UsableRotates | apps/api/src/modules/auth/auth.service.ts:155-208 | With a new id a refresh rotates exactly the tokens with the right secret of an active session that has not expired |
| TokenFamilies.WorksOnce | apps/api/src/modules/auth/auth.service.ts:151-232 | A refresh token that rotated once is answered as reused whenever it is presented again, and its family then has no active session |
| TokenFamilies.ResetEndsFamilies | apps/api/src/modules/auth/password-reset.service.ts:118-121 | A password reset ends every family the user has at that moment, for good; it revokes the active sessions of this user and leaves all others as they are |
| TokenFamilies.RunSameUser | apps/api/src/modules/auth/auth.service.ts:186-200 | In every run the sessions of a family belong to one user |
| TokenFamilies.SessionTable.RefreshToken | apps/api/src/modules/auth/auth.service.ts:151-208 | Each outcome has its exact condition on secret, status and expiry; a rotation leaves the presented session rotated and one new active session of its user and family with the new secret and expiry, reuse compromises exactly the family's active sessions, a late token is marked expired, and nothing else changes; a duplicate id rolls the rotation back |
| TokenFamilies.SessionTable.CreateSession | apps/api/src/modules/auth/auth.service.ts:258-279 | A new id starts a family that is a chain of that one session, whose token is usable exactly until it expires; every other session is as before, and all families stay chains |
| TokenFamilies.SessionTable.LogOut | apps/api/src/modules/auth/auth.service.ts:234-242 | Only the named session may change, and only from active to revoked; if it was active its whole family has no active session any more, and all families stay chains |
| TokenFamilies.LogoutEndsFamilyExactly | apps/api/src/modules/auth/auth.service.ts:234-242 | Logging out leaves the family without an active session exactly when the named session was active or the family had none already |
| RateLimit.Limiter.Consume | apps/api/src/modules/auth/rate-limit.service.ts:23-41 | A call is allowed exactly when fewer than limit remembered attempts are younger than the window; the key then remembers those and, if allowed, this one, other keys are kept or, when a full map gets a new key, all dropped; a disabled limiter allows everything and remembers nothing |
| RateLimit.AllowedExactly | apps/api/src/modules/auth/rate-limit.service.ts:28-40 | A call is allowed exactly when fewer than the limit were allowed within the last window since the last sweep |
| RateLimit.SpanBounded | apps/api/src/modules/auth/rate-limit.service.ts:23-41 | In any run a window-long span holds at most limit allowed attempts of a key, or with s sweeps of the whole map at most (s + 1) times the limit |
| RateLimit.BoundReached | apps/api/src/modules/auth/rate-limit.service.ts:35-38 | For every number s of sweeps and every positive limit there is a run in which one window holds (s + 1) times the limit |
| RateLimit.SinceBounded | apps/api/src/modules/auth/rate-limit.service.ts:23-41 | Between sweeps no window-long span holds more than the limit |
| RateLimit.SizeKept | apps/api/src/modules/auth/rate-limit.service.ts:30-39 | One call takes the map over 10,000 keys exactly when it is full, the key is new and the limit is not positive |
| RateLimit.SizeBounded | apps/api/src/modules/auth/rate-limit.service.ts:10-39 | With positive limits the map never holds more than 10,000 keys |
| RateLimit.KeysApart | apps/api/src/modules/auth/rate-limit.service.ts:27-27 | Buckets without a colon never share a key of the map |

## Left out

- Guarantees.ConsistencyCountersZero: runs in which a no-show is written after its booking has moved on are excluded, because the counters are not zero there (`NoShow.CheckedInNoShowRun`); `NoShow.SoundExactlyWhenTimely` is the exact condition.
- Guarantees.BookingMirrorsEntry: excludes the same runs.
- Guarantees.BookingHistoryIsPath: excludes the same runs.
- Guarantees.HistoriesGrow: excludes the same runs; a late write would move a cancelled booking.
- Store.Tables.ReconcilePendingRefunds: a refund's provider and provider reference are not modelled, only whether the provider confirms it.
- RateLimit.SpanBounded: the clock must not go back and a key must always be used with the same limit and window, as every caller does.
- TokenFamilies.ReuseEndsFamily: transactions of one family are serialised; a row lock on the presented session alone does not give that, and `TokenFamilies.SnapshotReuseExactly` is what holds without it.
- The `version` and timestamp columns of bookings, payments and refunds, recall counts, snapshots and codes of bookings: they decide nothing that is modelled.
- The per-payment refresh interval of the payments service: it only limits how often provider events arrive.
- Creation of the provider payment and the resumption of a lost one: the machine only records that a reference was stored.
- Cancellation percentages and the amount of a cancellation refund: the amount is an argument.
- The total collected for a booking against its price: the remainder receipt is created without a lock, so no bound holds.
- Expiry of idempotency rows, the length limit of keys, and thrown errors other than the recorded kinds.
- NaN and infinite numbers, functions, symbols and objects with their own `toJSON` in payloads; SHA-256.
- Operating-hour rows are read but their replacement is not modelled.
- Several staff members or services in one availability query; eligibility of staff for a service.
- Devices, access tokens, hashing and the registration and login checks.
- Liveness of follow-ups after a crash, notifications, the outbox, WebSocket and push delivery, reports, reviews, controllers and mappers.
