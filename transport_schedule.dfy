// client/src/components/TransportSchedule.tsx: the "Next Available
// Transport" card — which transports it lists, and the availability label,
// badge colour and card style of each. Rendering and fetching are not
// modelled; the current time is a parameter.

module TransportSchedule {
  import opened JsRuntime
  import opened Schema

  // ---------------------------------------------------------------------
  // Availability
  // ---------------------------------------------------------------------

  datatype Availability = Available | Limited | Full

  /** `availableCapacity / capacity` compared with 0.5 and 0.1. A zero
      capacity divides to Infinity when seats are left (Available) and to
      NaN when none are (every comparison fails: Full). For a positive
      capacity the thresholds read as whole-number comparisons. */
  function AvailabilityOf(availableCapacity: int, capacity: int): (a: Availability)
    ensures capacity > 0 ==> (a == Available <==> 2 * availableCapacity > capacity)
    ensures capacity > 0 ==>
      (a == Limited <==> 10 * availableCapacity > capacity && 2 * availableCapacity <= capacity)
    ensures capacity > 0 ==> (a == Full <==> 10 * availableCapacity <= capacity)
    ensures capacity == 0 ==> (a == Available <==> availableCapacity > 0)
    ensures capacity == 0 ==> (a == Full <==> availableCapacity <= 0)
  {
    if capacity == 0 then
      if availableCapacity > 0 then Available else Full
    else
      var ratio := availableCapacity as real / capacity as real;
      if capacity > 0 then
        assert 0.5 == 1.0 / 2 as real && 0.1 == 1.0 / 10 as real;
        RatioAbove(availableCapacity, capacity, 2);
        RatioAbove(availableCapacity, capacity, 10);
        ByRatio(ratio)
      else
        ByRatio(ratio)
  }

  /** The label for a finite ratio of free seats to seats. */
  function ByRatio(ratio: real): Availability {
    if ratio > 0.5 then Available else if ratio > 0.1 then Limited else Full
  }

  /** For a positive capacity, `available / capacity > 1/k` is
      `k * available > capacity`. */
  lemma RatioAbove(available: int, capacity: int, k: int)
    requires capacity > 0 && k > 0
    ensures available as real / capacity as real > 1.0 / k as real <==> k * available > capacity
  {
    var c, kr := capacity as real, k as real;
    var q := available as real / c;
    assert q * c == available as real;
    var t := 1.0 / kr;
    assert t * kr == 1.0;
    calc {
      q > t;
    <==> { assert c * kr > 0.0; }
      q * (c * kr) > t * (c * kr);
    <==> { assert q * (c * kr) == (q * c) * kr; assert t * (c * kr) == (t * kr) * c; }
      available as real * kr > c;
    <==> { assert available as real * kr == (k * available) as real; }
      k * available > capacity;
    }
  }

  /** `getAvailabilityStatus(transport)`. */
  function TransportAvailability(t: Transport): (a: Availability)
    ensures t.capacity > 0 && t.availableCapacity == t.capacity ==> a == Available
    ensures t.capacity >= 0 && t.availableCapacity <= 0 ==> a == Full
  {
    AvailabilityOf(t.availableCapacity, t.capacity)
  }

  function Rank(a: Availability): nat {
    match a
    case Full => 0
    case Limited => 1
    case Available => 2
  }

  /** More free seats on the same vehicle never give a worse label. */
  lemma AvailabilityMonotone(available1: int, available2: int, capacity: int)
    requires capacity >= 0 && available1 <= available2
    ensures Rank(AvailabilityOf(available1, capacity)) <= Rank(AvailabilityOf(available2, capacity))
  {
  }

  /** A transport at its default capacity with every seat free shows
      Available; one with no seat free shows Full. */
  lemma AvailabilityExtremes(capacity: int)
    requires capacity > 0
    ensures AvailabilityOf(capacity, capacity) == Available
    ensures AvailabilityOf(0, capacity) == Full
  {
  }

  /** The badge text. */
  function Label(a: Availability): string {
    match a
    case Available => "Available"
    case Limited => "Limited"
    case Full => "Full"
  }

  /** The colour family of an availability. */
  function Hue(a: Availability): string {
    match a
    case Available => "green"
    case Limited => "yellow"
    case Full => "red"
  }

  /** The badge colour classes: "bg-green-100 text-green-800",
      "bg-yellow-100 text-yellow-800" or "bg-red-100 text-red-800". */
  function BadgeColor(a: Availability): string {
    "bg-" + Hue(a) + ("-100 text-" + Hue(a) + "-800")
  }

  /** The colour family the card picks by comparing the badge text. */
  function CardShade(badge: string): string {
    if badge == "Available" then "green"
    else if badge == "Limited" then "yellow"
    else "red"
  }

  /** The card classes: "bg-green-50 border-green-200" and so on. */
  function CardClass(badge: string): string {
    "bg-" + CardShade(badge) + ("-50 border-" + CardShade(badge) + "-200")
  }

  /** The badge and the card of a transport are drawn in its colour family:
      the card's comparison of label texts picks the badge's colour. */
  lemma BadgeAndCardShowHue(a: Availability)
    ensures Includes(BadgeColor(a), Hue(a))
    ensures CardShade(Label(a)) == Hue(a)
    ensures Includes(CardClass(Label(a)), Hue(a))
  {
    IncludesMiddle("bg-", Hue(a), "-100 text-" + Hue(a) + "-800");
    assert CardShade(Label(a)) == Hue(a) by {
      assert |Label(a)| == match a case Available => 9 case Limited => 7 case Full => 4;
    }
    IncludesMiddle("bg-", Hue(a), "-50 border-" + Hue(a) + "-200");
  }

  /** Different availabilities have different labels and colour families. */
  lemma LabelsDistinct(a: Availability, b: Availability)
    requires a != b
    ensures Label(a) != Label(b) && Hue(a) != Hue(b)
  {
    assert |Label(a)| != |Label(b)|;
    assert |Hue(a)| != |Hue(b)|;
  }

  // ---------------------------------------------------------------------
  // Which transports are listed
  // ---------------------------------------------------------------------

  /** `new Date(departureTime) > new Date()`. */
  predicate IsUpcoming(departure: Timestamp, now: Timestamp): (b: bool)
    ensures b <==> now < departure
  {
    departure > now
  }

  predicate Listable(t: Transport, now: Timestamp) {
    IsUpcoming(t.departureTime, now) && t.status == DefaultTransportStatus
  }

  /** `transports.filter(t => isUpcoming(t.departureTime) && t.status === 'scheduled')`:
      exactly the listable transports, in their original order. */
  function UpcomingScheduled(transports: seq<Transport>, now: Timestamp): (r: seq<Transport>)
    ensures |r| <= |transports|
    ensures forall t :: t in r <==> t in transports && Listable(t, now)
  {
    if transports == [] then []
    else
      var rest := UpcomingScheduled(transports[1..], now);
      assert transports == [transports[0]] + transports[1..];
      if Listable(transports[0], now) then [transports[0]] + rest else rest
  }

  /** `s` is `full` with some elements removed, order kept. */
  predicate IsSubsequence<T(==)>(s: seq<T>, full: seq<T>)
    decreases |full|
  {
    if s == [] then true
    else if full == [] then false
    else if s[0] == full[0] then IsSubsequence(s[1..], full[1..])
    else IsSubsequence(s, full[1..])
  }

  /** The filter keeps the transports' order. */
  lemma {:induction false} UpcomingScheduledKeepsOrder(transports: seq<Transport>, now: Timestamp)
    ensures IsSubsequence(UpcomingScheduled(transports, now), transports)
    decreases |transports|
  {
    if transports != [] {
      UpcomingScheduledKeepsOrder(transports[1..], now);
      var rest := UpcomingScheduled(transports[1..], now);
      if Listable(transports[0], now) {
        assert ([transports[0]] + rest)[1..] == rest;
      } else {
        SubsequenceSkip(rest, transports);
      }
    }
  }

  /** Dropping the first element of `full` keeps a subsequence of the rest
      a subsequence. */
  lemma {:induction false} SubsequenceSkip<T>(s: seq<T>, full: seq<T>)
    requires full != [] && IsSubsequence(s, full[1..])
    ensures IsSubsequence(s, full)
    decreases |full|, 0
  {
    if s != [] && s[0] == full[0] {
      SubsequenceDropHead(s, full[1..]);
    }
  }

  /** Dropping the first element of a subsequence keeps it a subsequence. */
  lemma {:induction false} SubsequenceDropHead<T>(s: seq<T>, full: seq<T>)
    requires s != [] && IsSubsequence(s, full)
    ensures IsSubsequence(s[1..], full)
    decreases |full|, 1
  {
    if s[0] == full[0] {
      SubsequenceSkip(s[1..], full);
    } else {
      SubsequenceDropHead(s, full[1..]);
      SubsequenceSkip(s[1..], full);
    }
  }

  const MaxShown := 3

  /** The transports the card lists: the first three listable ones, in the
      order the server returned them. Every listed transport departs after
      `now` and is scheduled; when fewer than three are listed, every
      listable transport is. */
  function UpcomingTransports(transports: seq<Transport>, now: Timestamp): (shown: seq<Transport>)
    ensures |shown| <= MaxShown
    ensures forall t :: t in shown ==> t in transports && Listable(t, now)
    ensures |shown| <= |UpcomingScheduled(transports, now)|
    ensures shown == UpcomingScheduled(transports, now)[..|shown|]
    ensures |shown| < MaxShown ==> forall t :: t in transports && Listable(t, now) ==> t in shown
  {
    var candidates := UpcomingScheduled(transports, now);
    var shown := Take(candidates, MaxShown);
    assert forall t :: t in shown ==> t in candidates;
    shown
  }

  /** A transport that is not scheduled, or that has departed, is never
      listed, whatever else it carries. */
  lemma NeverListed(transports: seq<Transport>, now: Timestamp, t: Transport)
    requires t.status != DefaultTransportStatus || t.departureTime <= now
    ensures t !in UpcomingTransports(transports, now)
  {
  }
}
