// The rows of shared/schema.ts that the parcel core reads and writes.
// Timestamps are milliseconds since the epoch; `decimal(10, 2)` amounts are
// whole cents.

module Schema {
  import opened JsRuntime

  type Timestamp = nat

  /** The status a parcel row gets when the insert does not name one. */
  const DefaultParcelStatus := "pending"
  /** Transport capacity and available capacity defaults. */
  const DefaultCapacity := 50
  /** The status a transport row gets when the insert does not name one. */
  const DefaultTransportStatus := "scheduled"

  /** A parcel booking, one row of `parcels`. */
  datatype Parcel = Parcel(
    id: int,
    trackingNumber: string,
    senderId: string,
    senderName: string,
    senderPhone: string,
    pickupAddress: string,
    recipientName: string,
    recipientPhone: string,
    deliveryAddress: string,
    parcelSize: string,
    priority: string,
    description: Option<string>,
    estimatedCostCents: int,
    status: string,
    transportId: Option<int>,
    scheduledPickupAt: Option<Timestamp>,
    pickedUpAt: Option<Timestamp>,
    deliveredAt: Option<Timestamp>,
    estimatedDeliveryAt: Option<Timestamp>,
    createdAt: Timestamp,
    updatedAt: Timestamp)

  /** The fields a caller may give when a parcel is inserted: every column
      except the id, the tracking number and the two insert timestamps.
      Optional columns left out are `None`; `status` left out takes the
      column default. */
  datatype ParcelInput = ParcelInput(
    senderId: string,
    senderName: string,
    senderPhone: string,
    pickupAddress: string,
    recipientName: string,
    recipientPhone: string,
    deliveryAddress: string,
    parcelSize: string,
    priority: string,
    description: Option<string>,
    estimatedCostCents: int,
    status: Option<string>,
    transportId: Option<int>,
    scheduledPickupAt: Option<Timestamp>,
    pickedUpAt: Option<Timestamp>,
    deliveredAt: Option<Timestamp>,
    estimatedDeliveryAt: Option<Timestamp>)

  /** One row of `parcel_status_history`. */
  datatype StatusHistory = StatusHistory(
    id: int,
    parcelId: int,
    status: string,
    location: Option<string>,
    notes: Option<string>,
    timestamp: Timestamp)

  /** The fields a caller gives when a history row is inserted. */
  datatype StatusHistoryInput = StatusHistoryInput(
    parcelId: int,
    status: string,
    location: Option<string>,
    notes: Option<string>)

  /** A scheduled vehicle run, one row of `transports`. */
  datatype Transport = Transport(
    id: int,
    operator: string,
    vehicleNumber: string,
    routeFrom: string,
    routeTo: string,
    departureTime: Timestamp,
    arrivalTime: Timestamp,
    capacity: int,
    availableCapacity: int,
    status: string,
    currentLocation: Option<string>,
    createdAt: Timestamp,
    updatedAt: Timestamp)

  /** The fields a caller gives when a transport is inserted. */
  datatype TransportInput = TransportInput(
    operator: string,
    vehicleNumber: string,
    routeFrom: string,
    routeTo: string,
    departureTime: Timestamp,
    arrivalTime: Timestamp,
    capacity: Option<int>,
    availableCapacity: Option<int>,
    status: Option<string>,
    currentLocation: Option<string>)

  /** An in-app notification, one row of `notifications`. */
  datatype Notification = Notification(
    id: int,
    userId: string,
    title: string,
    message: string,
    kind: string,
    parcelId: Option<int>,
    isRead: bool,
    createdAt: Timestamp)

  /** The fields a caller gives when a notification is inserted. */
  datatype NotificationInput = NotificationInput(
    userId: string,
    title: string,
    message: string,
    kind: string,
    parcelId: Option<int>,
    isRead: Option<bool>)
}
