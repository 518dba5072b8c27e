// Sequences of store operations, as the booking and admin handlers of
// server/routes.ts issue them, and what the status history looks like
// afterwards.

module StorageScenarios {
  import opened JsRuntime
  import opened Schema
  import opened Notifications
  import opened Storage

  /** A history without rows for a parcel id has no rows for it. */
  lemma RowsForNone(history: seq<StatusHistory>, parcelId: int)
    requires forall i :: 0 <= i < |history| ==> history[i].parcelId != parcelId
    ensures RowsFor(history, parcelId) == []
  {
    var rows := RowsFor(history, parcelId);
    if rows != [] {
      RowsForMembership(history, parcelId, rows[0]);
    }
  }

  /** The statuses of a run of history rows, oldest first. */
  function StatusesOf(rows: seq<StatusHistory>): (r: seq<string>)
    ensures |r| == |rows|
  {
    if rows == [] then [] else StatusesOf(rows[..|rows| - 1]) + [rows[|rows| - 1].status]
  }

  lemma StatusesOfAppend(rows: seq<StatusHistory>, row: StatusHistory)
    ensures StatusesOf(rows + [row]) == StatusesOf(rows) + [row.status]
  {
    assert (rows + [row])[..|rows|] == rows;
  }

  /** One more row for a parcel extends its history by that row's status,
      and becomes its last row. */
  lemma HistoryStep(h: seq<StatusHistory>, row: StatusHistory, id: int)
    requires row.parcelId == id
    ensures RowsFor(h + [row], id) == RowsFor(h, id) + [row]
    ensures StatusesOf(RowsFor(h + [row], id)) == StatusesOf(RowsFor(h, id)) + [row.status]
  {
    RowsForAppend(h, row, id);
    StatusesOfAppend(RowsFor(h, id), row);
  }

  /** The booking row of a parcel whose id no earlier row carries is its
      only row. */
  lemma FirstRow(h: seq<StatusHistory>, row: StatusHistory)
    requires forall i :: 0 <= i < |h| ==> h[i].parcelId != row.parcelId
    ensures RowsFor(h + [row], row.parcelId) == [row]
    ensures StatusesOf(RowsFor(h + [row], row.parcelId)) == [row.status]
  {
    RowsForNone(h, row.parcelId);
    HistoryStep(h, row, row.parcelId);
  }

  /** A store call a request handler makes: a booking, a status update, or
      a call on the transport or notification table. Each carries its own
      clock reading; an update carries its notes and whether the provider
      call for it completes. */
  datatype Call =
    | BookCall(data: ParcelInput, year: nat, now: Timestamp)
    | UpdateCall(parcelId: int, status: string, notes: Option<string>, now: Timestamp, completes: bool)
    | TransportCall(transport: TransportInput, now: Timestamp)
    | CapacityCall(transportId: int, available: int, now: Timestamp)
    | NotifyCall(notification: NotificationInput, now: Timestamp)
    | ReadCall(notificationId: int)

  /** The status a call sets on parcel `id`: one for an update of it,
      none otherwise. */
  function StatusSet(call: Call, id: int): seq<string> {
    if call.UpdateCall? && call.parcelId == id then [call.status] else []
  }

  /** The statuses that `calls` set on parcel `id`, in order. */
  function UpdatesOf(calls: seq<Call>, id: int): (r: seq<string>)
    ensures |r| <= |calls|
  {
    if calls == [] then [] else StatusSet(calls[0], id) + UpdatesOf(calls[1..], id)
  }

  /** A parcel's statuses `statuses` once `calls` are made: each update of
      it adds its status at the end. */
  function Replay(statuses: seq<string>, calls: seq<Call>, id: int): (r: seq<string>)
    decreases |calls|
  {
    if calls == [] then statuses else Replay(statuses + StatusSet(calls[0], id), calls[1..], id)
  }

  /** Replaying calls appends exactly the statuses they set. */
  lemma {:induction false} ReplayAppends(statuses: seq<string>, calls: seq<Call>, id: int)
    ensures Replay(statuses, calls, id) == statuses + UpdatesOf(calls, id)
    decreases |calls|
  {
    if calls != [] {
      ReplayAppends(statuses + StatusSet(calls[0], id), calls[1..], id);
      assert statuses + StatusSet(calls[0], id) + UpdatesOf(calls[1..], id)
          == statuses + (StatusSet(calls[0], id) + UpdatesOf(calls[1..], id));
    }
  }

  lemma ReplayStep(statuses: seq<string>, calls: seq<Call>, k: nat, id: int)
    requires k < |calls|
    ensures Replay(statuses, calls[k..], id) == Replay(statuses + StatusSet(calls[k], id), calls[k + 1..], id)
  {
    assert calls[k..][1..] == calls[k + 1..];
  }

  /** Some call updates parcel `id`. */
  predicate Touches(calls: seq<Call>, id: int) {
    exists j :: 0 <= j < |calls| && calls[j].UpdateCall? && calls[j].parcelId == id
  }

  /** The calls touch the parcel exactly when they set some status on it. */
  lemma {:induction false} TouchesUpdates(calls: seq<Call>, id: int)
    ensures Touches(calls, id) <==> UpdatesOf(calls, id) != []
    decreases |calls|
  {
    if calls != [] {
      TouchesUpdates(calls[1..], id);
      if Touches(calls, id) && StatusSet(calls[0], id) == [] {
        var j :| 0 <= j < |calls| && calls[j].UpdateCall? && calls[j].parcelId == id;
        assert calls[1..][j - 1] == calls[j];
      }
      if Touches(calls[1..], id) {
        var j :| 0 <= j < |calls[1..]| && calls[1..][j].UpdateCall? && calls[1..][j].parcelId == id;
        assert calls[j + 1] == calls[1..][j];
      }
    }
  }

  lemma TouchesStep(calls: seq<Call>, k: nat, id: int)
    requires k < |calls|
    ensures Touches(calls[..k + 1], id) <==> Touches(calls[..k], id) || StatusSet(calls[k], id) != []
  {
    if Touches(calls[..k + 1], id) {
      var j :| 0 <= j < k + 1 && calls[..k + 1][j].UpdateCall? && calls[..k + 1][j].parcelId == id;
      if j < k {
        assert calls[..k][j] == calls[j];
      }
    }
    if Touches(calls[..k], id) {
      var j :| 0 <= j < k && calls[..k][j].UpdateCall? && calls[..k][j].parcelId == id;
      assert calls[..k + 1][j] == calls[j];
    }
    if StatusSet(calls[k], id) != [] {
      assert calls[..k + 1][k] == calls[k];
    }
  }

  /** The parcel is stored and its last history row carries its current
      status. */
  predicate LastRowCurrent(history: seq<StatusHistory>, parcels: map<int, Parcel>, id: int) {
    var rows := RowsFor(history, id);
    id in parcels && rows != [] && rows[|rows| - 1].status == parcels[id].status
  }

  /** Makes one call on the store. A stored parcel stays stored; its
      history gains a row exactly when the call updates it, and that row
      then carries its current status; any other call leaves its row and
      its history as they were. */
  method RunCall(store: ParcelStore, call: Call, ghost id: int)
    requires store.Valid() && id in store.parcels
    modifies store
    ensures store.Valid() && id in store.parcels
    ensures StatusesOf(RowsFor(store.history, id)) == StatusesOf(RowsFor(old(store.history), id)) + StatusSet(call, id)
    ensures LastRowCurrent(old(store.history), old(store.parcels), id) || StatusSet(call, id) != [] ==>
      LastRowCurrent(store.history, store.parcels, id)
    ensures StatusSet(call, id) == [] ==>
      store.parcels[id] == old(store.parcels[id]) && RowsFor(store.history, id) == RowsFor(old(store.history), id)
  {
    match call
    case BookCall(data, year, now) =>
      BookOther(store, data, year, now, id);
    case UpdateCall(parcelId, status, notes, now, completes) =>
      UpdateAny(store, parcelId, status, notes, now, completes, id);
    case _ =>
      RunTableCall(store, call);
  }

  /** A call on the transport or notification table leaves parcels and
      history as they were. */
  method RunTableCall(store: ParcelStore, call: Call)
    requires store.Valid() && !call.BookCall? && !call.UpdateCall?
    modifies store
    ensures store.Valid()
    ensures store.parcels == old(store.parcels) && store.history == old(store.history)
  {
    match call
    case TransportCall(data, now) =>
      var _ := store.CreateTransport(data, now);
    case CapacityCall(transportId, available, now) =>
      store.UpdateTransportCapacity(transportId, available, now);
    case NotifyCall(data, now) =>
      var _ := store.CreateNotification(data, now);
    case ReadCall(notificationId) =>
      store.MarkNotificationAsRead(notificationId);
  }

  /** A booking, which gets a new id, leaves a stored parcel's row and
      history as they were. */
  method BookOther(store: ParcelStore, data: ParcelInput, year: nat, now: Timestamp, ghost id: int)
    requires store.Valid() && id in store.parcels
    modifies store
    ensures store.Valid() && id in store.parcels
    ensures RowsFor(store.history, id) == RowsFor(old(store.history), id)
    ensures store.parcels[id] == old(store.parcels[id])
  {
    ghost var h := store.history;
    var outcome := store.CreateParcel(data, year, now);
    if outcome.Created? {
      RowsForAppend(h, StatusHistory(|h| + 1, outcome.parcel.id, DefaultParcelStatus, None,
        Some("Parcel booking created"), now), id);
    }
  }

  /** A status update of any parcel. For parcel `id` it adds a row with its
      status, which becomes current; for another parcel it leaves the row
      and history of `id` as they were. */
  method UpdateAny(store: ParcelStore, parcelId: int, status: string, notes: Option<string>, now: Timestamp,
                   completes: bool, ghost id: int)
    requires store.Valid() && id in store.parcels
    modifies store
    ensures store.Valid() && id in store.parcels
    ensures parcelId == id ==>
      && StatusesOf(RowsFor(store.history, id)) == StatusesOf(RowsFor(old(store.history), id)) + [status]
      && LastRowCurrent(store.history, store.parcels, id)
    ensures parcelId != id ==>
      RowsFor(store.history, id) == RowsFor(old(store.history), id) && store.parcels[id] == old(store.parcels[id])
  {
    ghost var h := store.history;
    store.UpdateParcelStatus(parcelId, status, notes, now, completes);
    ghost var row := StatusHistory(|h| + 1, parcelId, status, None, notes, now);
    if parcelId == id {
      HistoryStep(h, row, id);
    } else {
      RowsForAppend(h, row, id);
    }
  }

  /** Makes `calls` in order, as the booking, admin and dashboard handlers
      issue them, each at its own time. A stored parcel's history gains
      exactly the statuses the calls set on it, in order; once it has been
      updated (or if its last row already matched), its last row carries its
      current status. */
  method TrackUpdates(store: ParcelStore, calls: seq<Call>, ghost id: int)
    requires store.Valid() && id in store.parcels
    modifies store
    ensures store.Valid() && id in store.parcels
    ensures StatusesOf(RowsFor(store.history, id)) == Replay(StatusesOf(RowsFor(old(store.history), id)), calls, id)
    ensures LastRowCurrent(old(store.history), old(store.parcels), id) || Touches(calls, id) ==>
      LastRowCurrent(store.history, store.parcels, id)
  {
    ghost var current := LastRowCurrent(store.history, store.parcels, id);
    ghost var goal := Replay(StatusesOf(RowsFor(store.history, id)), calls, id);
    var k := 0;
    while k < |calls|
      invariant 0 <= k <= |calls|
      invariant store.Valid() && id in store.parcels
      invariant Replay(StatusesOf(RowsFor(store.history, id)), calls[k..], id) == goal
      invariant current || Touches(calls[..k], id) ==> LastRowCurrent(store.history, store.parcels, id)
    {
      ReplayStep(StatusesOf(RowsFor(store.history, id)), calls, k, id);
      RunCall(store, calls[k], id);
      TouchesStep(calls, k, id);
      k := k + 1;
    }
    assert calls[..k] == calls;
  }

  /** `createParcel` as written, then `calls`. The new parcel's history is
      "pending" followed by the statuses the calls set on it, so k updates
      leave k + 1 rows. Its last row carries its current status once it has
      been updated, or from the start when the booking named no status
      other than "pending". Needs only that no history row already carries
      the id the booking will get; a stray update of that id (see
      `OrphanRowInherited`) is exactly the case left out. */
  method BookAndTrack(store: ParcelStore, data: ParcelInput, year: nat, now: Timestamp, calls: seq<Call>)
    returns (outcome: CreateOutcome)
    requires store.Valid()
    requires forall i :: 0 <= i < |store.history| ==> store.history[i].parcelId != store.nextParcelId
    modifies store
    ensures store.Valid()
    ensures outcome.Created? ==>
      var id := outcome.parcel.id;
      && id in store.parcels
      && StatusesOf(RowsFor(store.history, id)) == [DefaultParcelStatus] + UpdatesOf(calls, id)
      && (data.status.GetOr(DefaultParcelStatus) == DefaultParcelStatus || UpdatesOf(calls, id) != [] ==>
            LastRowCurrent(store.history, store.parcels, id))
  {
    ghost var before := store.history;
    outcome := store.CreateParcel(data, year, now);
    if outcome.DuplicateTrackingNumber? {
      return;
    }
    FirstRow(before, store.history[|before|]);
    assert store.history == before + [store.history[|before|]];
    TrackUpdates(store, calls, outcome.parcel.id);
    ReplayAppends([DefaultParcelStatus], calls, outcome.parcel.id);
    TouchesUpdates(calls, outcome.parcel.id);
  }

  /** As `BookAndTrack`, with the booking forced to start "pending": the
      parcel's last history row carries its current status after any calls
      at all. Needs, as `BookAndTrack` does, that no history row already
      carries the id the booking will get. */
  method BookPendingAndTrack(store: ParcelStore, data: ParcelInput, year: nat, now: Timestamp, calls: seq<Call>)
    returns (outcome: CreateOutcome)
    requires store.Valid()
    requires forall i :: 0 <= i < |store.history| ==> store.history[i].parcelId != store.nextParcelId
    modifies store
    ensures store.Valid()
    ensures outcome.Created? ==>
      var id := outcome.parcel.id;
      && StatusesOf(RowsFor(store.history, id)) == [DefaultParcelStatus] + UpdatesOf(calls, id)
      && LastRowCurrent(store.history, store.parcels, id)
  {
    ghost var before := store.history;
    outcome := store.CreateParcelPending(data, year, now);
    if outcome.DuplicateTrackingNumber? {
      return;
    }
    FirstRow(before, store.history[|before|]);
    assert store.history == before + [store.history[|before|]];
    TrackUpdates(store, calls, outcome.parcel.id);
    ReplayAppends([DefaultParcelStatus], calls, outcome.parcel.id);
    TouchesUpdates(calls, outcome.parcel.id);
  }

  /** A booking as the booking form submits it, optionally with a status. */
  function SampleBooking(status: Option<string>): ParcelInput {
    ParcelInput("user-1", "Ann Smith", "0821234567", "1 Main Rd, Durban, 4001", "Bob Jones",
      "0831112222", "2 Long St, Cape Town, 8001", "small", "standard", None, 2500, status,
      None, None, None, None, None)
  }

  /** A fresh database after a status update for parcel 1, which does not
      exist yet: no parcels, and one history row. */
  method StrayUpdate(sms: SmsConfig) returns (store: ParcelStore)
    ensures fresh(store) && store.Valid()
    ensures store.parcels == map[] && store.nextParcelId == 1
    ensures store.history == [StatusHistory(1, 1, "delivered", None, None, 1000)]
  {
    store := new ParcelStore(sms);
    store.UpdateParcelStatus(1, "delivered", None, 1000, true);
  }

  /** As written, a status update for parcel 1 on an empty database leaves a
      history row behind; the parcel booked next gets id 1 and inherits it,
      so its history starts with a "delivered" row stamped before the
      booking, and holds two rows after no update at all. */
  method OrphanRowInherited(sms: SmsConfig) returns (booked: CreateOutcome, rows: seq<StatusHistory>)
    ensures booked.Created? && booked.parcel.id == 1
    ensures |rows| == 2
    ensures rows[0].status == "delivered" && rows[0].timestamp < booked.parcel.createdAt
    ensures rows[1].status == DefaultParcelStatus
  {
    var store := StrayUpdate(sms);
    ghost var first := StatusHistory(1, 1, "delivered", None, None, 1000);
    booked := store.CreateParcel(SampleBooking(None), 2025, 2000);
    assert !TrackingNumberTaken(map[], TrackingNumber(2025, 2000));
    ghost var second := StatusHistory(2, 1, DefaultParcelStatus, None, Some("Parcel booking created"), 2000);
    assert store.history == [first] + [second];
    rows := RowsFor(store.history, 1);
    RowsForAppend([], first, 1);
    RowsForAppend([first], second, 1);
  }

  /** With the missing-parcel case closed, the same two calls leave the new
      parcel with only its booking row. */
  method OrphanRowPrevented(sms: SmsConfig) returns (booked: CreateOutcome, rows: seq<StatusHistory>)
    ensures booked.Created? && booked.parcel.id == 1
    ensures |rows| == 1 && rows[0].status == DefaultParcelStatus
  {
    var store := new ParcelStore(sms);
    store.UpdateParcelStatusChecked(1, "delivered", None, 1000, true);
    booked := store.CreateParcelPending(SampleBooking(None), 2025, 2000);
    assert !TrackingNumberTaken(map[], TrackingNumber(2025, 2000));
    rows := RowsFor(store.history, 1);
    assert store.history == [] + [store.history[0]];
    RowsForAppend([], store.history[0], 1);
  }

  /** As written, a booking that names its own status is stored with it,
      while its only history row says "pending". */
  method CallerStatusDisagrees(sms: SmsConfig) returns (booked: CreateOutcome, rows: seq<StatusHistory>)
    ensures booked.Created? && booked.parcel.status == "delivered"
    ensures |rows| == 1 && rows[0].status == DefaultParcelStatus
  {
    var store := new ParcelStore(sms);
    booked := store.CreateParcel(SampleBooking(Some("delivered")), 2025, 2000);
    assert !TrackingNumberTaken(map[], TrackingNumber(2025, 2000));
    rows := RowsFor(store.history, booked.parcel.id);
    assert store.history == [] + [store.history[0]];
    RowsForAppend([], store.history[0], booked.parcel.id);
  }

  /** With the booking forced to start "pending", the parcel and its only
      history row agree. */
  method CallerStatusIgnored(sms: SmsConfig) returns (booked: CreateOutcome, rows: seq<StatusHistory>)
    ensures booked.Created? && booked.parcel.status == DefaultParcelStatus
    ensures |rows| == 1 && rows[0].status == booked.parcel.status
  {
    var store := new ParcelStore(sms);
    booked := store.CreateParcelPending(SampleBooking(Some("delivered")), 2025, 2000);
    assert !TrackingNumberTaken(map[], TrackingNumber(2025, 2000));
    rows := RowsFor(store.history, booked.parcel.id);
    assert store.history == [] + [store.history[0]];
    RowsForAppend([], store.history[0], booked.parcel.id);
  }
}
