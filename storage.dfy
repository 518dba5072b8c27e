// server/storage.ts: `DatabaseStorage` over an in-memory store. Each table
// is a map from its serial id to its row (the status history is an
// append-only sequence); serial counters are fields; the SMS provider is an
// outbox of attempted sends. The clock is a parameter of every operation
// that stamps a row, the calendar year of that clock a parameter of
// `createParcel`, and the provider's behaviour a boolean parameter.

module Storage {
  import opened JsRuntime
  import opened Schema
  import opened Notifications

  // ---------------------------------------------------------------------
  // Tracking numbers
  // ---------------------------------------------------------------------

  /** `RT-${year}-${String(Date.now()).slice(-6)}`. */
  function TrackingNumber(year: nat, now: Timestamp): (r: string)
    ensures |r| >= 6 && r[..3] == "RT-"
  {
    var digits := LastN(DecimalString(now), 6);
    var r := "RT-" + (DecimalString(year) + "-" + digits);
    assert r[..3] == "RT-";
    r
  }

  lemma Pow10Six()
    ensures Pow10(5) == 100000 && Pow10(6) == 1000000
  {
    assert Pow10(1) == 10;
    assert Pow10(2) == 100;
    assert Pow10(3) == 1000;
    assert Pow10(4) == 10000;
  }

  /** For a four-digit year and a clock past 100000 ms, the tracking number
      is 14 characters: "RT-", the year, "-", and the six low-order decimal
      digits of the clock. */
  lemma TrackingNumberFormat(year: nat, now: Timestamp)
    requires 1000 <= year <= 9999 && now >= 100000
    ensures var tn := TrackingNumber(year, now);
      && |tn| == 14
      && tn[..3] == "RT-" && tn[3..7] == DecimalString(year) && tn[7] == '-'
      && tn[8..] == LowDigits(now, 6)
      && (forall i :: 3 <= i < 7 || 8 <= i < 14 ==> IsDigit(tn[i]))
  {
    Pow10Six();
    assert Pow10(3) == 1000 && Pow10(4) == 10000;
    DecimalStringLength(year, 4);
    LastNOfDecimal(now, 6);
    var tn := TrackingNumber(year, now);
    var y, d := DecimalString(year), LowDigits(now, 6);
    assert tn == "RT-" + y + "-" + d;
    assert tn[3..7] == y;
    assert tn[8..] == d;
    forall i | 3 <= i < 7 || 8 <= i < 14 ensures IsDigit(tn[i]) {
      if i < 7 { assert tn[i] == y[i - 3]; } else { assert tn[i] == d[i - 8]; }
    }
  }

  /** Two bookings in the same year whose clocks are a multiple of 10^6 ms
      apart (about 16.7 minutes) get the same tracking number; only the
      table's unique constraint tells them apart. */
  lemma TrackingNumberRepeats(year: nat, now: Timestamp, k: nat)
    requires now >= 100000
    ensures TrackingNumber(year, now + k * 1000000) == TrackingNumber(year, now)
  {
    Pow10Six();
    var m: nat := 0;
    while m < k
      invariant m <= k
      invariant LowDigits(now + m * 1000000, 6) == LowDigits(now, 6)
    {
      LowDigitsPeriodic(now + m * 1000000, 6);
      assert now + m * 1000000 + Pow10(6) == now + (m + 1) * 1000000;
      m := m + 1;
    }
    LastNOfDecimal(now, 6);
    LastNOfDecimal(now + k * 1000000, 6);
  }

  // ---------------------------------------------------------------------
  // Row construction and row updates
  // ---------------------------------------------------------------------

  /** The row `insert(parcels).values({...data, trackingNumber})` returns:
      the caller's columns, the generated tracking number, the serial id,
      the status column default when no status is given, and both insert
      timestamps set to the clock. */
  function NewParcel(id: int, trackingNumber: string, data: ParcelInput, now: Timestamp): (p: Parcel)
    ensures p.id == id && p.trackingNumber == trackingNumber
    ensures p.status == data.status.GetOr(DefaultParcelStatus)
    ensures p.createdAt == now && p.updatedAt == now
    ensures p.senderId == data.senderId && p.recipientPhone == data.recipientPhone
    ensures p.recipientName == data.recipientName && p.deliveredAt == data.deliveredAt
  {
    Parcel(id, trackingNumber, data.senderId, data.senderName, data.senderPhone,
      data.pickupAddress, data.recipientName, data.recipientPhone, data.deliveryAddress,
      data.parcelSize, data.priority, data.description, data.estimatedCostCents,
      data.status.GetOr(DefaultParcelStatus), data.transportId, data.scheduledPickupAt,
      data.pickedUpAt, data.deliveredAt, data.estimatedDeliveryAt, now, now)
  }

  /** The `set` of `updateParcelStatus`: the status and `updatedAt` always;
      `deliveredAt` only for "delivered" and `pickedUpAt` only for
      "collected", overwritten on every repeat; every other column kept. */
  function StatusUpdated(p: Parcel, status: string, now: Timestamp): (q: Parcel)
    ensures q.status == status && q.updatedAt == now
    ensures q.deliveredAt == if status == "delivered" then Some(now) else p.deliveredAt
    ensures q.pickedUpAt == if status == "collected" then Some(now) else p.pickedUpAt
    ensures q.(status := p.status, updatedAt := p.updatedAt,
               deliveredAt := p.deliveredAt, pickedUpAt := p.pickedUpAt) == p
  {
    var q := p.(status := status, updatedAt := now);
    var q := if status == "delivered" then q.(deliveredAt := Some(now)) else q;
    if status == "collected" then q.(pickedUpAt := Some(now)) else q
  }

  /** `update(parcels)...where(eq(parcels.id, id))`: the matching row, if
      any, gets the status update; no other row changes. */
  function ParcelsAfterStatus(parcels: map<int, Parcel>, id: int, status: string, now: Timestamp)
    : (after: map<int, Parcel>)
    ensures after.Keys == parcels.Keys
    ensures forall k :: k in parcels && k != id ==> after[k] == parcels[k]
    ensures id in parcels ==> after[id] == StatusUpdated(parcels[id], status, now)
    ensures forall k :: k in after ==>
      after[k].id == parcels[k].id && after[k].trackingNumber == parcels[k].trackingNumber
  {
    if id in parcels then parcels[id := StatusUpdated(parcels[id], status, now)] else parcels
  }

  /** Setting the same status twice at the same time is setting it once. */
  lemma ParcelsAfterStatusIdempotent(parcels: map<int, Parcel>, id: int, status: string, now: Timestamp)
    ensures var once := ParcelsAfterStatus(parcels, id, status, now);
      ParcelsAfterStatus(once, id, status, now) == once
  {
    var once := ParcelsAfterStatus(parcels, id, status, now);
    if id in parcels {
      assert StatusUpdated(once[id], status, now) == once[id];
    }
  }

  /** `update(transports).set({ availableCapacity, updatedAt })`: the
      matching row, if any, gets the new figure (not checked against the
      capacity); nothing else changes. */
  function TransportsAfterCapacity(transports: map<int, Transport>, id: int, available: int, now: Timestamp)
    : (after: map<int, Transport>)
    ensures after.Keys == transports.Keys
    ensures forall k :: k in transports && k != id ==> after[k] == transports[k]
    ensures id in transports ==>
      after[id].availableCapacity == available && after[id].updatedAt == now
      && after[id].(availableCapacity := transports[id].availableCapacity,
                    updatedAt := transports[id].updatedAt) == transports[id]
  {
    if id in transports then
      transports[id := transports[id].(availableCapacity := available, updatedAt := now)]
    else transports
  }

  /** `update(notifications).set({ isRead: true })`. */
  function NotificationsAfterRead(notifications: map<int, Notification>, id: int)
    : (after: map<int, Notification>)
    ensures after.Keys == notifications.Keys
    ensures forall k :: k in notifications && k != id ==> after[k] == notifications[k]
    ensures id in notifications ==>
      after[id].isRead && after[id].(isRead := notifications[id].isRead) == notifications[id]
  {
    if id in notifications then notifications[id := notifications[id].(isRead := true)]
    else notifications
  }

  /** Marking a notification read twice is marking it once. */
  lemma NotificationsAfterReadIdempotent(notifications: map<int, Notification>, id: int)
    ensures var once := NotificationsAfterRead(notifications, id);
      NotificationsAfterRead(once, id) == once
  {
    var once := NotificationsAfterRead(notifications, id);
    if id in notifications {
      assert once[id].(isRead := true) == once[id];
    }
  }

  /** The row `insert(transports)` returns: capacity and available capacity
      default to 50, status to "scheduled". */
  function NewTransport(id: int, data: TransportInput, now: Timestamp): (t: Transport)
    ensures t.id == id && t.createdAt == now && t.updatedAt == now
    ensures t.capacity == data.capacity.GetOr(DefaultCapacity)
    ensures t.availableCapacity == data.availableCapacity.GetOr(DefaultCapacity)
    ensures t.status == data.status.GetOr(DefaultTransportStatus)
    ensures t.routeFrom == data.routeFrom && t.routeTo == data.routeTo
    ensures t.departureTime == data.departureTime
  {
    Transport(id, data.operator, data.vehicleNumber, data.routeFrom, data.routeTo,
      data.departureTime, data.arrivalTime, data.capacity.GetOr(DefaultCapacity),
      data.availableCapacity.GetOr(DefaultCapacity), data.status.GetOr(DefaultTransportStatus),
      data.currentLocation, now, now)
  }

  /** The row `insert(notifications)` returns: unread unless the caller
      says otherwise. */
  function NewNotification(id: int, data: NotificationInput, now: Timestamp): (n: Notification)
    ensures n.id == id && n.createdAt == now && n.userId == data.userId
    ensures n.isRead == data.isRead.GetOr(false)
    ensures n.parcelId == data.parcelId && n.message == data.message
  {
    Notification(id, data.userId, data.title, data.message, data.kind, data.parcelId,
      data.isRead.GetOr(false), now)
  }

  // ---------------------------------------------------------------------
  // The SMS outbox
  // ---------------------------------------------------------------------

  /** One provider call: the request handed over, whether it completed,
      and how many history rows existed when it was made. */
  datatype OutboxEntry = OutboxEntry(request: SmsRequest, completed: bool, historyCount: nat)

  /** The SMS step of `updateParcelStatus` for a parcel read before the
      update: nothing when the sender is not configured, otherwise one call
      to the recipient's normalised number carrying the composed message
      (with the notes passed as the location). Its outcome is recorded and
      goes no further. */
  function SmsAttempts(cfg: SmsConfig, before: Parcel, status: string, notes: Option<string>,
                       historyCount: nat, providerCompletes: bool): (sent: seq<OutboxEntry>)
    ensures |sent| <= 1
    ensures |sent| == 1 <==> Configured(cfg)
    ensures |sent| == 1 ==>
      && sent[0].request.to == NormalizePhone(before.recipientPhone)
      && sent[0].request.body == ComposeMessage(before.trackingNumber, status, before.recipientName, notes)
      && sent[0].historyCount == historyCount
      && (sent[0].completed <==> providerCompletes)
  {
    var message := ComposeMessage(before.trackingNumber, status, before.recipientName, notes);
    match SendSms(cfg, before.recipientPhone, message, providerCompletes)
    case Skipped => []
    case Attempted(request, completed) => [OutboxEntry(request, completed, historyCount)]
  }

  // ---------------------------------------------------------------------
  // Ordering
  // ---------------------------------------------------------------------

  /** `s` is in non-decreasing order of `key`, neighbour by neighbour. */
  ghost predicate Ordered<T>(s: seq<T>, key: T -> int)
    decreases |s|
  {
    |s| <= 1 || (key(s[0]) <= key(s[1]) && Ordered(s[1..], key))
  }

  /** Neighbour order is order between any two positions. */
  lemma {:induction false} OrderedAllPairs<T>(s: seq<T>, key: T -> int)
    requires Ordered(s, key)
    ensures forall i, j :: 0 <= i < j < |s| ==> key(s[i]) <= key(s[j])
    decreases |s|
  {
    if |s| > 1 {
      OrderedAllPairs(s[1..], key);
      forall i, j | 0 <= i < j < |s| ensures key(s[i]) <= key(s[j]) {
        assert s[j] == s[1..][j - 1];
        if i > 0 {
          assert s[i] == s[1..][i - 1];
        } else if j > 1 {
          assert s[1] == s[1..][0];
        }
      }
    }
  }

  /** Insert `x` after every element whose key is not larger. */
  function InsertSorted<T>(s: seq<T>, x: T, key: T -> int): (r: seq<T>)
    ensures |r| == |s| + 1
    ensures multiset(r) == multiset(s) + multiset{x}
    ensures r[0] == x || (s != [] && r[0] == s[0])
  {
    if s == [] || key(x) < key(s[0]) then
      [x] + s
    else
      assert s == [s[0]] + s[1..];
      [s[0]] + InsertSorted(s[1..], x, key)
  }

  /** Inserting into an ordered sequence keeps it ordered. */
  lemma {:induction false} InsertSortedKeepsOrder<T>(s: seq<T>, x: T, key: T -> int)
    requires Ordered(s, key)
    ensures Ordered(InsertSorted(s, x, key), key)
    decreases |s|
  {
    var r := InsertSorted(s, x, key);
    if s != [] && key(x) >= key(s[0]) {
      var rest := InsertSorted(s[1..], x, key);
      InsertSortedKeepsOrder(s[1..], x, key);
      assert r == [s[0]] + rest;
      assert r[1..] == rest;
      if |s| > 1 {
        assert s[1..][0] == s[1];
      }
    } else {
      assert r == [x] + s;
      assert r[1..] == s;
    }
  }

  /** `ORDER BY key`: an ordered permutation of the rows. */
  function SortBy<T>(s: seq<T>, key: T -> int): (r: seq<T>)
    ensures multiset(r) == multiset(s)
    ensures Ordered(r, key)
    decreases |s|
  {
    if s == [] then [] else
      var init, last := s[..|s| - 1], s[|s| - 1];
      assert s == init + [last];
      var sorted := SortBy(init, key);
      InsertSortedKeepsOrder(sorted, last, key);
      InsertSorted(sorted, last, key)
  }

  /** Newest first by `createdAt`. */
  function NewestCreated(p: Parcel): int { -(p.createdAt as int) }

  /** Newest first by history timestamp. */
  function NewestStamped(h: StatusHistory): int { -(h.timestamp as int) }

  /** Earliest departure first. */
  function EarliestDeparture(t: Transport): int { t.departureTime }

  // ---------------------------------------------------------------------
  // The rows a query selects, in id order
  // ---------------------------------------------------------------------

  /** The parcels with ids 1 .. n-1 that the user sent, in id order. */
  function UserRows(parcels: map<int, Parcel>, userId: string, n: int): (rows: seq<Parcel>)
    ensures |rows| <= if n <= 1 then 0 else n - 1
    decreases n
  {
    if n <= 1 then [] else
      UserRows(parcels, userId, n - 1)
      + (if n - 1 in parcels && parcels[n - 1].senderId == userId then [parcels[n - 1]] else [])
  }

  /** The scan selects every stored parcel the user sent, and nothing
      else. */
  lemma {:induction false} UserRowsMembership(parcels: map<int, Parcel>, userId: string, n: int, p: Parcel)
    ensures p in UserRows(parcels, userId, n) <==>
      (exists id :: 1 <= id < n && id in parcels && parcels[id] == p) && p.senderId == userId
    decreases n
  {
    if n > 1 {
      UserRowsMembership(parcels, userId, n - 1, p);
      var rows := UserRows(parcels, userId, n);
      if n - 1 in parcels && parcels[n - 1] == p && p.senderId == userId {
        assert rows[|rows| - 1] == p;
      }
    }
  }

  /** The history rows of one parcel, in insertion order. */
  function RowsFor(history: seq<StatusHistory>, parcelId: int): (r: seq<StatusHistory>)
    ensures |r| <= |history|
  {
    if history == [] then [] else
      var init := history[..|history| - 1];
      var last := history[|history| - 1];
      assert history == init + [last];
      RowsFor(init, parcelId) + (if last.parcelId == parcelId then [last] else [])
  }

  /** A parcel's rows are the history rows carrying its id. */
  lemma {:induction false} RowsForMembership(history: seq<StatusHistory>, parcelId: int, h: StatusHistory)
    ensures h in RowsFor(history, parcelId) <==> h in history && h.parcelId == parcelId
    decreases |history|
  {
    if history != [] {
      var init := history[..|history| - 1];
      RowsForMembership(init, parcelId, h);
      assert history == init + [history[|history| - 1]];
    }
  }

  /** Appending a row adds it to its parcel's rows and to no other's. */
  lemma RowsForAppend(history: seq<StatusHistory>, row: StatusHistory, parcelId: int)
    ensures RowsFor(history + [row], parcelId) ==
      RowsFor(history, parcelId) + (if row.parcelId == parcelId then [row] else [])
  {
    assert (history + [row])[..|history|] == history;
  }

  /** `like(routeFrom, '%from%') and like(routeTo, '%to%') and status = 'scheduled'`,
      reading LIKE as case-sensitive substring search. */
  predicate OnRoute(t: Transport, from: string, to: string) {
    Includes(t.routeFrom, from) && Includes(t.routeTo, to) && t.status == DefaultTransportStatus
  }

  /** The transports with ids 1 .. n-1 that are on the route, in id order. */
  function RouteRows(transports: map<int, Transport>, from: string, to: string, n: int): (rows: seq<Transport>)
    decreases n
  {
    if n <= 1 then [] else
      RouteRows(transports, from, to, n - 1)
      + (if n - 1 in transports && OnRoute(transports[n - 1], from, to) then [transports[n - 1]] else [])
  }

  /** The scan selects every stored transport on the route, and nothing
      else. */
  lemma {:induction false} RouteRowsMembership(transports: map<int, Transport>, from: string, to: string,
                                               n: int, t: Transport)
    ensures t in RouteRows(transports, from, to, n) <==>
      (exists id :: 1 <= id < n && id in transports && transports[id] == t) && OnRoute(t, from, to)
    decreases n
  {
    if n > 1 {
      RouteRowsMembership(transports, from, to, n - 1, t);
      var rows := RouteRows(transports, from, to, n);
      if n - 1 in transports && transports[n - 1] == t && OnRoute(t, from, to) {
        assert rows[|rows| - 1] == t;
      }
    }
  }

  /** How many parcels in `ps` have the given status. */
  function CountStatus(ps: seq<Parcel>, status: string): (c: nat)
    ensures c <= |ps|
  {
    if ps == [] then 0 else
      CountStatus(ps[..|ps| - 1], status) + (if ps[|ps| - 1].status == status then 1 else 0)
  }

  /** The dashboard figures. */
  datatype Stats = Stats(total: nat, inTransit: nat, delivered: nat, pending: nat)

  /** Three different statuses never count one parcel twice, so their
      counts add up to at most the number of parcels. */
  lemma {:induction false} StatusCountsBounded(ps: seq<Parcel>)
    ensures CountStatus(ps, "in_transit") + CountStatus(ps, "delivered") + CountStatus(ps, "pending") <= |ps|
  {
    if ps != [] {
      StatusCountsBounded(ps[..|ps| - 1]);
    }
  }

  /** A parcel counted under a status is one of the user's parcels with
      that status: the count is positive exactly when there is one. */
  lemma {:induction false} CountStatusPositive(ps: seq<Parcel>, status: string)
    ensures CountStatus(ps, status) > 0 <==> exists p :: p in ps && p.status == status
  {
    if ps != [] {
      var init := ps[..|ps| - 1];
      CountStatusPositive(init, status);
      assert ps == init + [ps[|ps| - 1]];
      if exists p :: p in ps && p.status == status {
        var p :| p in ps && p.status == status;
        if p != ps[|ps| - 1] {
          assert p in init;
        }
      }
    }
  }

  // ---------------------------------------------------------------------
  // The store
  // ---------------------------------------------------------------------

  /** What `createParcel` resolves to: the inserted row, or the error the
      unique constraint on the tracking number raises. */
  datatype CreateOutcome = Created(parcel: Parcel) | DuplicateTrackingNumber

  /** The tracking number is already on a row. */
  predicate TrackingNumberTaken(parcels: map<int, Parcel>, trackingNumber: string) {
    exists id | id in parcels :: parcels[id].trackingNumber == trackingNumber
  }

  // ---------------------------------------------------------------------
  // Table invariants
  // ---------------------------------------------------------------------

  /** Parcel rows are stored under their serial ids, all below the
      counter, and no two carry the same tracking number. */
  predicate ParcelTable(parcels: map<int, Parcel>, next: int) {
    && next >= 1
    && (forall id :: id in parcels ==> 1 <= id < next && parcels[id].id == id)
    && (forall i, j :: i in parcels && j in parcels && i != j ==>
          parcels[i].trackingNumber != parcels[j].trackingNumber)
  }

  /** History ids are 1, 2, 3, ... in insertion order. */
  predicate HistoryNumbered(history: seq<StatusHistory>) {
    forall i :: 0 <= i < |history| ==> history[i].id == i + 1
  }

  predicate TransportTable(transports: map<int, Transport>, next: int) {
    next >= 1 && forall id :: id in transports ==> 1 <= id < next && transports[id].id == id
  }

  predicate NotificationTable(notifications: map<int, Notification>, next: int) {
    next >= 1 && forall id :: id in notifications ==> 1 <= id < next && notifications[id].id == id
  }

  /** Every SMS call was made after at least one of the first n history
      rows existed, and refers to one of them. */
  predicate OutboxWithin(outbox: seq<OutboxEntry>, n: int) {
    forall k :: 0 <= k < |outbox| ==> 1 <= outbox[k].historyCount <= n
  }

  /** A status update keeps the parcel table's keys and tracking numbers. */
  lemma ParcelTableAfterStatus(parcels: map<int, Parcel>, next: int, id: int, status: string, now: Timestamp)
    requires ParcelTable(parcels, next)
    ensures ParcelTable(ParcelsAfterStatus(parcels, id, status, now), next)
  {
  }

  /** Inserting a row with a fresh tracking number under the counter, and
      moving the counter on, keeps the table valid. */
  lemma ParcelTableInsert(parcels: map<int, Parcel>, next: int, p: Parcel)
    requires ParcelTable(parcels, next) && p.id == next
    requires !TrackingNumberTaken(parcels, p.trackingNumber)
    ensures ParcelTable(parcels[next := p], next + 1)
    ensures next !in parcels
  {
  }

  /** Using up a serial id without inserting keeps the table valid. */
  lemma ParcelTableSkip(parcels: map<int, Parcel>, next: int)
    requires ParcelTable(parcels, next)
    ensures ParcelTable(parcels, next + 1)
  {
  }

  /** Every history row refers to a parcel in the table. */
  predicate Attached(history: seq<StatusHistory>, parcels: map<int, Parcel>) {
    forall i :: 0 <= i < |history| ==> history[i].parcelId in parcels
  }

  /** Adding a parcel keeps the history attached. */
  lemma AttachedInsert(history: seq<StatusHistory>, parcels: map<int, Parcel>, id: int, p: Parcel)
    requires Attached(history, parcels)
    ensures Attached(history, parcels[id := p])
  {
  }

  /** Appending a row for a parcel in the table keeps the history attached. */
  lemma AttachedAppend(history: seq<StatusHistory>, parcels: map<int, Parcel>, row: StatusHistory)
    requires Attached(history, parcels) && row.parcelId in parcels
    ensures Attached(history + [row], parcels)
  {
  }

  lemma HistoryAppend(history: seq<StatusHistory>, row: StatusHistory)
    requires HistoryNumbered(history) && row.id == |history| + 1
    ensures HistoryNumbered(history + [row])
  {
  }

  lemma OutboxAppend(outbox: seq<OutboxEntry>, sent: seq<OutboxEntry>, n: int, m: int)
    requires OutboxWithin(outbox, n) && n <= m
    requires forall k :: 0 <= k < |sent| ==> 1 <= sent[k].historyCount <= m
    ensures OutboxWithin(outbox, m) && OutboxWithin(outbox + sent, m)
  {
  }

  class ParcelStore {
    var parcels: map<int, Parcel>
    var nextParcelId: int
    var history: seq<StatusHistory>
    var transports: map<int, Transport>
    var nextTransportId: int
    var notifications: map<int, Notification>
    var nextNotificationId: int
    /** Every provider call made, in order. */
    var outbox: seq<OutboxEntry>
    /** The SMS environment settings. */
    const sms: SmsConfig

    /** Serial ids below their counters and stored under themselves;
        tracking numbers unique; history ids 1, 2, 3, ... in insertion
        order; every SMS made after at least one history row existed. */
    ghost predicate Valid()
      reads this
    {
      && ParcelTable(parcels, nextParcelId)
      && HistoryNumbered(history)
      && TransportTable(transports, nextTransportId)
      && NotificationTable(notifications, nextNotificationId)
      && OutboxWithin(outbox, |history|)
    }

    /** Every history row belongs to a parcel that exists. */
    ghost predicate NoOrphanHistory()
      reads this
    {
      Attached(history, parcels)
    }

    /** An empty database. */
    constructor(sms: SmsConfig)
      ensures Valid() && NoOrphanHistory()
      ensures parcels == map[] && history == [] && transports == map[]
      ensures notifications == map[] && outbox == [] && this.sms == sms
      ensures nextParcelId == 1 && nextTransportId == 1 && nextNotificationId == 1
    {
      parcels := map[];
      nextParcelId := 1;
      history := [];
      transports := map[];
      nextTransportId := 1;
      notifications := map[];
      nextNotificationId := 1;
      outbox := [];
      this.sms := sms;
    }

    /** `addParcelStatusHistory`: appends one row with the next serial id
        and the clock as its timestamp, for any parcel id. */
    method AddParcelStatusHistory(data: StatusHistoryInput, now: Timestamp) returns (row: StatusHistory)
      requires Valid()
      modifies this
      ensures Valid()
      ensures row == StatusHistory(|old(history)| + 1, data.parcelId, data.status, data.location, data.notes, now)
      ensures history == old(history) + [row]
      ensures parcels == old(parcels) && nextParcelId == old(nextParcelId)
      ensures transports == old(transports) && nextTransportId == old(nextTransportId)
      ensures notifications == old(notifications) && nextNotificationId == old(nextNotificationId)
      ensures outbox == old(outbox)
    {
      row := StatusHistory(|history| + 1, data.parcelId, data.status, data.location, data.notes, now);
      HistoryAppend(history, row);
      OutboxAppend(outbox, [], |history|, |history| + 1);
      history := history + [row];
    }

    /** The `insert(parcels)` step: the row goes in under the next serial
        id, which is used up. */
    method InsertParcel(p: Parcel)
      requires Valid() && p.id == nextParcelId && !TrackingNumberTaken(parcels, p.trackingNumber)
      modifies this
      ensures Valid()
      ensures p.id !in old(parcels) && parcels == old(parcels)[p.id := p]
      ensures nextParcelId == old(nextParcelId) + 1
      ensures history == old(history) && outbox == old(outbox)
      ensures transports == old(transports) && nextTransportId == old(nextTransportId)
      ensures notifications == old(notifications) && nextNotificationId == old(nextNotificationId)
      ensures old(NoOrphanHistory()) ==> NoOrphanHistory()
    {
      ParcelTableInsert(parcels, nextParcelId, p);
      if Attached(history, parcels) {
        AttachedInsert(history, parcels, p.id, p);
      }
      parcels := parcels[p.id := p];
      nextParcelId := nextParcelId + 1;
    }

    /** `createParcel`: inserts the row under the next serial id with the
        generated tracking number, then appends the "pending" history row
        "Parcel booking created" with no location. A tracking number already
        on a row makes the insert fail (the serial id is still used up) and
        nothing is written. */
    method CreateParcel(data: ParcelInput, year: nat, now: Timestamp) returns (outcome: CreateOutcome)
      requires Valid()
      modifies this
      ensures Valid()
      ensures var tn := TrackingNumber(year, now);
        outcome.DuplicateTrackingNumber? <==> TrackingNumberTaken(old(parcels), tn)
      ensures nextParcelId == old(nextParcelId) + 1
      ensures outcome.DuplicateTrackingNumber? ==>
        parcels == old(parcels) && history == old(history)
      ensures outcome.Created? ==>
        && outcome.parcel == NewParcel(old(nextParcelId), TrackingNumber(year, now), data, now)
        && outcome.parcel.id !in old(parcels)
        && parcels == old(parcels)[outcome.parcel.id := outcome.parcel]
        && history == old(history) + [StatusHistory(|old(history)| + 1, outcome.parcel.id,
             DefaultParcelStatus, None, Some("Parcel booking created"), now)]
      ensures old(NoOrphanHistory()) ==> NoOrphanHistory()
      ensures transports == old(transports) && nextTransportId == old(nextTransportId)
      ensures notifications == old(notifications) && nextNotificationId == old(nextNotificationId)
      ensures outbox == old(outbox)
    {
      var tn := TrackingNumber(year, now);
      var p := NewParcel(nextParcelId, tn, data, now);
      if TrackingNumberTaken(parcels, tn) {
        ParcelTableSkip(parcels, nextParcelId);
        nextParcelId := nextParcelId + 1;
        return DuplicateTrackingNumber;
      }
      BookParcel(p, now);
      outcome := Created(p);
    }

    /** The success path of `CreateParcel`: the row goes in under the
        counter, then the booking row of the history follows it. */
    method BookParcel(p: Parcel, now: Timestamp)
      requires Valid() && p.id == nextParcelId && !TrackingNumberTaken(parcels, p.trackingNumber)
      modifies this
      ensures Valid()
      ensures p.id !in old(parcels) && parcels == old(parcels)[p.id := p]
      ensures nextParcelId == old(nextParcelId) + 1
      ensures history == old(history) + [StatusHistory(|old(history)| + 1, p.id,
        DefaultParcelStatus, None, Some("Parcel booking created"), now)]
      ensures old(NoOrphanHistory()) ==> NoOrphanHistory()
      ensures transports == old(transports) && nextTransportId == old(nextTransportId)
      ensures notifications == old(notifications) && nextNotificationId == old(nextNotificationId)
      ensures outbox == old(outbox)
    {
      InsertParcel(p);
      ghost var attached, h := Attached(history, parcels), history;
      var row := AddParcelStatusHistory(StatusHistoryInput(p.id, DefaultParcelStatus, None, Some("Parcel booking created")), now);
      if attached {
        AttachedAppend(h, parcels, row);
      }
    }

    /** `createParcel` with the booking forced to start "pending", so that
        the parcel's status and its first history row agree; otherwise as
        written. */
    method CreateParcelPending(data: ParcelInput, year: nat, now: Timestamp) returns (outcome: CreateOutcome)
      requires Valid()
      modifies this
      ensures Valid()
      ensures outcome.DuplicateTrackingNumber? <==> TrackingNumberTaken(old(parcels), TrackingNumber(year, now))
      ensures nextParcelId == old(nextParcelId) + 1
      ensures outcome.DuplicateTrackingNumber? ==>
        parcels == old(parcels) && history == old(history)
      ensures outcome.Created? ==>
        && outcome.parcel == NewParcel(old(nextParcelId), TrackingNumber(year, now), data.(status := None), now)
        && outcome.parcel.status == DefaultParcelStatus
        && outcome.parcel.id !in old(parcels)
        && parcels == old(parcels)[outcome.parcel.id := outcome.parcel]
        && history == old(history) + [StatusHistory(|old(history)| + 1, outcome.parcel.id,
             outcome.parcel.status, None, Some("Parcel booking created"), now)]
      ensures old(NoOrphanHistory()) ==> NoOrphanHistory()
      ensures transports == old(transports) && nextTransportId == old(nextTransportId)
      ensures notifications == old(notifications) && nextNotificationId == old(nextNotificationId)
      ensures outbox == old(outbox)
    {
      outcome := CreateParcel(data.(status := None), year, now);
    }

    /** The `update(parcels).set(...)` step of `updateParcelStatus`. */
    method SetParcelStatus(id: int, status: string, now: Timestamp)
      requires Valid()
      modifies this
      ensures Valid()
      ensures parcels == ParcelsAfterStatus(old(parcels), id, status, now)
      ensures history == old(history) && outbox == old(outbox) && nextParcelId == old(nextParcelId)
      ensures transports == old(transports) && nextTransportId == old(nextTransportId)
      ensures notifications == old(notifications) && nextNotificationId == old(nextNotificationId)
    {
      ParcelTableAfterStatus(parcels, nextParcelId, id, status, now);
      parcels := ParcelsAfterStatus(parcels, id, status, now);
    }

    /** `updateParcelStatus` as written: reads the parcel, updates its row
        if there is one, appends one history row (parcel id, status, no
        location, the notes) whether or not the parcel exists, and only then,
        for a parcel that existed, makes at most one SMS call built from the
        row as it was before the update. The call's outcome is only
        recorded: the update itself always succeeds. */
    method UpdateParcelStatus(id: int, status: string, notes: Option<string>, now: Timestamp,
                              providerCompletes: bool)
      requires Valid()
      modifies this
      ensures Valid()
      ensures parcels == ParcelsAfterStatus(old(parcels), id, status, now)
      ensures history == old(history) + [StatusHistory(|old(history)| + 1, id, status, None, notes, now)]
      ensures outbox == old(outbox) +
        if id in old(parcels) then
          SmsAttempts(sms, old(parcels)[id], status, notes, |old(history)| + 1, providerCompletes)
        else []
      ensures nextParcelId == old(nextParcelId)
      ensures transports == old(transports) && nextTransportId == old(nextTransportId)
      ensures notifications == old(notifications) && nextNotificationId == old(nextNotificationId)
    {
      var before: Option<Parcel> := if id in parcels then Some(parcels[id]) else None;
      SetParcelStatus(id, status, now);
      var row := AddParcelStatusHistory(StatusHistoryInput(id, status, None, notes), now);
      if before.Some? {
        RecordSms(SmsAttempts(sms, before.value, status, notes, row.id, providerCompletes));
      }
    }

    /** Appends the provider requests made for the latest history row. */
    method RecordSms(sent: seq<OutboxEntry>)
      requires Valid()
      requires forall k :: 0 <= k < |sent| ==> 1 <= sent[k].historyCount <= |history|
      modifies this
      ensures Valid()
      ensures outbox == old(outbox) + sent
      ensures parcels == old(parcels) && history == old(history) && nextParcelId == old(nextParcelId)
      ensures transports == old(transports) && nextTransportId == old(nextTransportId)
      ensures notifications == old(notifications) && nextNotificationId == old(nextNotificationId)
    {
      OutboxAppend(outbox, sent, |history|, |history|);
      outbox := outbox + sent;
    }

    /** `updateParcelStatus` with the missing-parcel case closed: an id
        with no row changes nothing at all; otherwise as written. Keeps
        every history row attached to an existing parcel. */
    method UpdateParcelStatusChecked(id: int, status: string, notes: Option<string>, now: Timestamp,
                                     providerCompletes: bool)
      requires Valid()
      modifies this
      ensures Valid()
      ensures id !in old(parcels) ==>
        parcels == old(parcels) && history == old(history) && outbox == old(outbox)
      ensures id in old(parcels) ==>
        && parcels == ParcelsAfterStatus(old(parcels), id, status, now)
        && history == old(history) + [StatusHistory(|old(history)| + 1, id, status, None, notes, now)]
        && outbox == old(outbox) +
             SmsAttempts(sms, old(parcels)[id], status, notes, |old(history)| + 1, providerCompletes)
      ensures old(NoOrphanHistory()) ==> NoOrphanHistory()
      ensures nextParcelId == old(nextParcelId)
      ensures transports == old(transports) && nextTransportId == old(nextTransportId)
      ensures notifications == old(notifications) && nextNotificationId == old(nextNotificationId)
    {
      if id in parcels {
        UpdateParcelStatus(id, status, notes, now, providerCompletes);
      }
    }

    /** `getParcelStatusHistory`: exactly the parcel's rows, newest
        timestamp first. */
    function GetParcelStatusHistory(parcelId: int): (rows: seq<StatusHistory>)
      reads this
      ensures multiset(rows) == multiset(RowsFor(history, parcelId))
      ensures Ordered(rows, NewestStamped)
    {
      SortBy(RowsFor(history, parcelId), NewestStamped)
    }

    /** `getUserParcels`: exactly the user's parcels, newest first. */
    function GetUserParcels(userId: string): (result: seq<Parcel>)
      reads this
      ensures multiset(result) == multiset(UserRows(parcels, userId, nextParcelId))
      ensures Ordered(result, NewestCreated)
    {
      SortBy(UserRows(parcels, userId, nextParcelId), NewestCreated)
    }

    /** `getUserParcelStats`: the number of the user's parcels, and how
        many of them are in transit, delivered and pending. */
    function GetUserParcelStats(userId: string): (stats: Stats)
      reads this
      ensures stats.inTransit + stats.delivered + stats.pending <= stats.total
      ensures stats.total == |UserRows(parcels, userId, nextParcelId)|
      ensures stats.inTransit == CountStatus(UserRows(parcels, userId, nextParcelId), "in_transit")
      ensures stats.delivered == CountStatus(UserRows(parcels, userId, nextParcelId), "delivered")
      ensures stats.pending == CountStatus(UserRows(parcels, userId, nextParcelId), "pending")
    {
      var mine := UserRows(parcels, userId, nextParcelId);
      StatusCountsBounded(mine);
      Stats(|mine|, CountStatus(mine, "in_transit"), CountStatus(mine, "delivered"),
            CountStatus(mine, "pending"))
    }

    /** `createTransport`: inserts the row under the next serial id. */
    method CreateTransport(data: TransportInput, now: Timestamp) returns (t: Transport)
      requires Valid()
      modifies this
      ensures Valid()
      ensures t == NewTransport(old(nextTransportId), data, now) && t.id !in old(transports)
      ensures transports == old(transports)[t.id := t] && nextTransportId == old(nextTransportId) + 1
      ensures parcels == old(parcels) && nextParcelId == old(nextParcelId) && history == old(history)
      ensures notifications == old(notifications) && nextNotificationId == old(nextNotificationId)
      ensures outbox == old(outbox)
    {
      t := NewTransport(nextTransportId, data, now);
      transports := transports[t.id := t];
      nextTransportId := nextTransportId + 1;
    }

    /** `getAvailableTransports(from, to)`: the scheduled transports whose
        origin contains `from` and destination contains `to`, earliest
        departure first. */
    function GetAvailableTransports(from: string, to: string): (result: seq<Transport>)
      reads this
      ensures multiset(result) == multiset(RouteRows(transports, from, to, nextTransportId))
      ensures Ordered(result, EarliestDeparture)
    {
      SortBy(RouteRows(transports, from, to, nextTransportId), EarliestDeparture)
    }

    /** `updateTransportCapacity`. */
    method UpdateTransportCapacity(id: int, available: int, now: Timestamp)
      requires Valid()
      modifies this
      ensures Valid()
      ensures transports == TransportsAfterCapacity(old(transports), id, available, now)
      ensures parcels == old(parcels) && nextParcelId == old(nextParcelId) && history == old(history)
      ensures nextTransportId == old(nextTransportId)
      ensures notifications == old(notifications) && nextNotificationId == old(nextNotificationId)
      ensures outbox == old(outbox)
    {
      transports := TransportsAfterCapacity(transports, id, available, now);
    }

    /** `createNotification`: inserts the row under the next serial id. */
    method CreateNotification(data: NotificationInput, now: Timestamp) returns (n: Notification)
      requires Valid()
      modifies this
      ensures Valid()
      ensures n == NewNotification(old(nextNotificationId), data, now) && n.id !in old(notifications)
      ensures notifications == old(notifications)[n.id := n]
      ensures nextNotificationId == old(nextNotificationId) + 1
      ensures parcels == old(parcels) && nextParcelId == old(nextParcelId) && history == old(history)
      ensures transports == old(transports) && nextTransportId == old(nextTransportId)
      ensures outbox == old(outbox)
    {
      n := NewNotification(nextNotificationId, data, now);
      notifications := notifications[n.id := n];
      nextNotificationId := nextNotificationId + 1;
    }

    /** `markNotificationAsRead`. */
    method MarkNotificationAsRead(id: int)
      requires Valid()
      modifies this
      ensures Valid()
      ensures notifications == NotificationsAfterRead(old(notifications), id)
      ensures parcels == old(parcels) && nextParcelId == old(nextParcelId) && history == old(history)
      ensures transports == old(transports) && nextTransportId == old(nextTransportId)
      ensures nextNotificationId == old(nextNotificationId) && outbox == old(outbox)
    {
      notifications := NotificationsAfterRead(notifications, id);
    }
  }

  // ---------------------------------------------------------------------
  // What the queries promise
  // ---------------------------------------------------------------------

  /** A sorted permutation of a selection holds exactly the selected rows. */
  lemma SameElements<T>(result: seq<T>, selected: seq<T>, x: T)
    requires multiset(result) == multiset(selected)
    ensures x in result <==> x in selected
  {
    assert x in result <==> x in multiset(result);
    assert x in selected <==> x in multiset(selected);
  }

  /** The status history of a parcel holds exactly its rows, newest first. */
  lemma StatusHistoryExactly(history: seq<StatusHistory>, parcelId: int,
                             rows: seq<StatusHistory>, h: StatusHistory)
    requires multiset(rows) == multiset(RowsFor(history, parcelId))
    requires Ordered(rows, NewestStamped)
    ensures h in rows <==> h in history && h.parcelId == parcelId
    ensures forall i, j :: 0 <= i < j < |rows| ==> rows[i].timestamp >= rows[j].timestamp
  {
    SameElements(rows, RowsFor(history, parcelId), h);
    RowsForMembership(history, parcelId, h);
    OrderedAllPairs(rows, NewestStamped);
    forall i, j | 0 <= i < j < |rows| ensures rows[i].timestamp >= rows[j].timestamp {
      assert NewestStamped(rows[i]) <= NewestStamped(rows[j]);
    }
  }

  /** The user's parcels are exactly the stored rows the user sent, newest
      first. */
  lemma UserParcelsExactly(parcels: map<int, Parcel>, n: int, userId: string,
                           result: seq<Parcel>, p: Parcel)
    requires multiset(result) == multiset(UserRows(parcels, userId, n))
    requires Ordered(result, NewestCreated)
    requires forall id :: id in parcels ==> 1 <= id < n
    ensures p in result <==> (exists id :: id in parcels && parcels[id] == p) && p.senderId == userId
    ensures forall i, j :: 0 <= i < j < |result| ==> result[i].createdAt >= result[j].createdAt
  {
    SameElements(result, UserRows(parcels, userId, n), p);
    UserRowsMembership(parcels, userId, n, p);
    OrderedAllPairs(result, NewestCreated);
    forall i, j | 0 <= i < j < |result| ensures result[i].createdAt >= result[j].createdAt {
      assert NewestCreated(result[i]) <= NewestCreated(result[j]);
    }
  }

  /** The available transports are exactly the stored ones on the route
      and scheduled, earliest departure first. */
  lemma AvailableTransportsExactly(transports: map<int, Transport>, n: int, from: string, to: string,
                                   result: seq<Transport>, t: Transport)
    requires multiset(result) == multiset(RouteRows(transports, from, to, n))
    requires Ordered(result, EarliestDeparture)
    requires forall id :: id in transports ==> 1 <= id < n
    ensures t in result <==>
      (exists id :: id in transports && transports[id] == t)
      && Includes(t.routeFrom, from) && Includes(t.routeTo, to) && t.status == "scheduled"
    ensures forall i, j :: 0 <= i < j < |result| ==> result[i].departureTime <= result[j].departureTime
  {
    SameElements(result, RouteRows(transports, from, to, n), t);
    RouteRowsMembership(transports, from, to, n, t);
    OrderedAllPairs(result, EarliestDeparture);
    forall i, j | 0 <= i < j < |result| ensures result[i].departureTime <= result[j].departureTime {
      assert EarliestDeparture(result[i]) <= EarliestDeparture(result[j]);
    }
  }
}
