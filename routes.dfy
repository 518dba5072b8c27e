// server/routes.ts: the computations inside the request handlers — the cost
// estimate, the payment amount in cents, the sender name given to a new
// booking, and the 404/403 rule for reading one parcel. Request parsing,
// authentication and the payment provider are not modelled.

module Routes {
  import opened JsRuntime
  import opened Schema

  // ---------------------------------------------------------------------
  // Rounding
  // ---------------------------------------------------------------------

  /** `Math.round(x)` (and, for the non-negative amounts it is applied to,
      the integer behind `toFixed(2)`): the nearest integer, halves upward.
      The result is the one integer within half a unit below or above x. */
  function RoundHalfUp(x: real): (n: int)
    ensures n as real - 0.5 <= x < n as real + 0.5
  {
    (x + 0.5).Floor
  }

  /** Rounding never reverses the order of two numbers. */
  lemma RoundHalfUpMonotone(x: real, y: real)
    requires x <= y
    ensures RoundHalfUp(x) <= RoundHalfUp(y)
  {
  }

  /** An integer rounds to itself. */
  lemma RoundHalfUpOfInteger(k: int)
    ensures RoundHalfUp(k as real) == k
  {
    var n := RoundHalfUp(k as real);
    assert n - 1 < k < n + 1 by {
      assert n as real - 0.5 <= k as real < n as real + 0.5;
    }
  }

  // ---------------------------------------------------------------------
  // Cost estimate (POST /api/estimate-cost)
  // ---------------------------------------------------------------------

  const BaseCost: real := 25.0
  const DefaultDistance: real := 100.0

  /** The size table: small 1, medium 1.5, large 2.5; anything else,
      including a missing size, counts as 1. */
  function SizeMultiplier(size: Option<string>): (m: real)
    ensures m >= 1.0
    ensures m == 1.0 <==> size != Some("medium") && size != Some("large")
    ensures size == Some("medium") ==> m == 1.5
    ensures size == Some("large") ==> m == 2.5
  {
    if size == Some("small") then 1.0
    else if size == Some("medium") then 1.5
    else if size == Some("large") then 2.5
    else 1.0
  }

  /** The priority table: standard 1, express 1.5, next_transport 2;
      anything else counts as 1. */
  function PriorityMultiplier(priority: Option<string>): (m: real)
    ensures m >= 1.0
    ensures m == 1.0 <==> priority != Some("express") && priority != Some("next_transport")
    ensures priority == Some("express") ==> m == 1.5
    ensures priority == Some("next_transport") ==> m == 2.0
  {
    if priority == Some("standard") then 1.0
    else if priority == Some("express") then 1.5
    else if priority == Some("next_transport") then 2.0
    else 1.0
  }

  /** `Math.max(1, distance / 100)`. */
  function DistanceFactor(distance: real): (f: real)
    ensures f >= 1.0 && f >= distance / 100.0
    ensures f == 1.0 || f == distance / 100.0
  {
    if distance / 100.0 > 1.0 then distance / 100.0 else 1.0
  }

  /** The estimate before rounding; a missing distance counts as 100. */
  function RawCost(size: Option<string>, priority: Option<string>, distance: Option<real>): real {
    BaseCost * SizeMultiplier(size) * PriorityMultiplier(priority)
    * DistanceFactor(distance.GetOr(DefaultDistance))
  }

  lemma ProductAtLeastOne(a: real, b: real)
    requires a >= 1.0 && b >= 1.0
    ensures a * b >= 1.0 && a * b >= a
  {
    assert a * b - a == a * (b - 1.0);
  }

  /** The estimate is at least the base cost. */
  lemma RawCostAtLeastBase(size: Option<string>, priority: Option<string>, distance: Option<real>)
    ensures RawCost(size, priority, distance) >= BaseCost
  {
    var s, p := SizeMultiplier(size), PriorityMultiplier(priority);
    var d := DistanceFactor(distance.GetOr(DefaultDistance));
    ProductAtLeastOne(s, p);
    ProductAtLeastOne(s * p, d);
    assert RawCost(size, priority, distance) == BaseCost * (s * p * d);
  }

  /** The estimated cost: the raw estimate rounded to whole cents. It is at
      least 25, has at most two decimals, and lies within half a cent of the
      raw estimate. */
  function EstimateCost(size: Option<string>, priority: Option<string>, distance: Option<real>): (cost: real)
    ensures cost >= BaseCost
    ensures (cost * 100.0).Floor as real == cost * 100.0
    ensures -0.005 < cost - RawCost(size, priority, distance) <= 0.005
  {
    var raw := RawCost(size, priority, distance);
    RawCostAtLeastBase(size, priority, distance);
    var cents := RoundHalfUp(raw * 100.0);
    assert cents >= 2500 by {
      assert cents as real + 0.5 > raw * 100.0 >= 2500.0;
    }
    var cost := cents as real / 100.0;
    assert cost * 100.0 == cents as real;
    assert -0.5 < cost * 100.0 - raw * 100.0 <= 0.5;
    cost
  }

  /** Up to 100 km the distance does not matter, and a missing distance
      is the same as 100. */
  lemma EstimateCostShortDistance(size: Option<string>, priority: Option<string>, d: real)
    requires d <= 100.0
    ensures EstimateCost(size, priority, Some(d)) == EstimateCost(size, priority, None)
  {
    assert DistanceFactor(d) == 1.0 == DistanceFactor(DefaultDistance);
  }

  /** Before rounding, a longer distance never costs less. */
  lemma RawCostMonotoneInDistance(size: Option<string>, priority: Option<string>, d1: real, d2: real)
    requires d1 <= d2
    ensures RawCost(size, priority, Some(d1)) <= RawCost(size, priority, Some(d2))
  {
    var k := BaseCost * SizeMultiplier(size) * PriorityMultiplier(priority);
    var f1, f2 := DistanceFactor(d1), DistanceFactor(d2);
    assert f1 <= f2;
    assert k >= 0.0;
    assert k * f2 - k * f1 == k * (f2 - f1);
    assert RawCost(size, priority, Some(d1)) == k * f1;
    assert RawCost(size, priority, Some(d2)) == k * f2;
  }

  /** A longer distance never costs less. */
  lemma EstimateCostMonotoneInDistance(size: Option<string>, priority: Option<string>, d1: real, d2: real)
    requires d1 <= d2
    ensures EstimateCost(size, priority, Some(d1)) <= EstimateCost(size, priority, Some(d2))
  {
    var r1, r2 := RawCost(size, priority, Some(d1)), RawCost(size, priority, Some(d2));
    RawCostMonotoneInDistance(size, priority, d1, d2);
    RoundHalfUpMonotone(r1 * 100.0, r2 * 100.0);
    CentsToAmountMonotone(RoundHalfUp(r1 * 100.0), RoundHalfUp(r2 * 100.0));
  }

  lemma CentsToAmountMonotone(a: int, b: int)
    requires a <= b
    ensures a as real / 100.0 <= b as real / 100.0
  {
  }

  /** An unrecognised size or priority costs the same as small or standard. */
  lemma EstimateCostUnknownIsBaseline(size: Option<string>, priority: Option<string>, distance: Option<real>)
    requires size !in {Some("small"), Some("medium"), Some("large")}
    requires priority !in {Some("standard"), Some("express"), Some("next_transport")}
    ensures EstimateCost(size, priority, distance) == EstimateCost(Some("small"), Some("standard"), distance)
  {
  }

  /** Two worked estimates: 25 for the cheapest booking, 250 for a large
      next-transport parcel over 200 km. */
  lemma EstimateCostExamples()
    ensures EstimateCost(Some("small"), Some("standard"), None) == 25.0
    ensures EstimateCost(Some("large"), Some("next_transport"), Some(200.0)) == 250.0
  {
    assert RawCost(Some("small"), Some("standard"), None) == 25.0;
    RoundHalfUpOfInteger(2500);
    assert RawCost(Some("large"), Some("next_transport"), Some(200.0)) == 250.0;
    RoundHalfUpOfInteger(25000);
  }

  // ---------------------------------------------------------------------
  // Payment amount (POST /api/create-payment-intent)
  // ---------------------------------------------------------------------

  /** `Math.round(amount * 100)`: the amount in whole cents, within half a
      cent of the exact value. */
  function PaymentCents(amount: real): (cents: int)
    ensures cents as real - 0.5 <= amount * 100.0 < cents as real + 0.5
  {
    RoundHalfUp(amount * 100.0)
  }

  /** An amount that is already whole cents converts exactly; in particular
      an estimate converts to its own cent count. */
  lemma PaymentCentsExact(cents: int)
    ensures PaymentCents(cents as real / 100.0) == cents
  {
    assert cents as real / 100.0 * 100.0 == cents as real;
    RoundHalfUpOfInteger(cents);
  }

  // ---------------------------------------------------------------------
  // Sender name (POST /api/parcels)
  // ---------------------------------------------------------------------

  /** `` `${firstName || ''} ${lastName || ''}`.trim() || 'Unknown' ``:
      never empty and never padded with whitespace. */
  function SenderName(firstName: Option<string>, lastName: Option<string>): (name: string)
    ensures name != ""
    ensures !IsWhitespace(name[0]) && !IsWhitespace(name[|name| - 1])
  {
    var joined := Trim(OrElse(firstName, "") + " " + OrElse(lastName, ""));
    if joined == "" then "Unknown" else joined
  }

  /** A string of whitespace trims to nothing. */
  lemma TrimAllWhitespace(s: string)
    requires forall k :: 0 <= k < |s| ==> IsWhitespace(s[k])
    ensures Trim(s) == ""
  {
  }

  predicate Blank(s: Option<string>) {
    s.None? || forall k :: 0 <= k < |s.value| ==> IsWhitespace(s.value[k])
  }

  predicate Neat(s: string) {
    s != "" && !IsWhitespace(s[0]) && !IsWhitespace(s[|s| - 1])
  }

  /** With both names given the sender is "first last"; with only a first
      name it is that name; with neither (or only whitespace) it is
      "Unknown". */
  lemma SenderNameCases(firstName: Option<string>, lastName: Option<string>)
    ensures firstName.Some? && Neat(firstName.value) && lastName.Some? && Neat(lastName.value) ==>
      SenderName(firstName, lastName) == firstName.value + " " + lastName.value
    ensures firstName.Some? && Neat(firstName.value) && lastName.None? ==>
      SenderName(firstName, lastName) == firstName.value
    ensures Blank(firstName) && Blank(lastName) ==> SenderName(firstName, lastName) == "Unknown"
  {
    var first, last := OrElse(firstName, ""), OrElse(lastName, "");
    var joined := first + " " + last;
    if firstName.Some? && Neat(firstName.value) && lastName.Some? && Neat(lastName.value) {
      TrimOfTrimmed(joined);
    }
    if firstName.Some? && Neat(firstName.value) && lastName.None? {
      assert joined == first + " ";
      assert TrimStart(joined) == joined;
      assert joined[..|joined| - 1] == first;
      assert TrimEnd(first) == first;
    }
    if Blank(firstName) && Blank(lastName) {
      assert forall k :: 0 <= k < |joined| ==> IsWhitespace(joined[k]) by {
        forall k | 0 <= k < |joined| ensures IsWhitespace(joined[k]) {
          if k < |first| { assert joined[k] == first[k]; }
          else if k > |first| { assert joined[k] == last[k - |first| - 1]; }
        }
      }
      TrimAllWhitespace(joined);
    }
  }

  // ---------------------------------------------------------------------
  // Reading one parcel (GET /api/parcels/:id)
  // ---------------------------------------------------------------------

  /** The three answers of the handler. */
  datatype FetchResponse = NotFound | AccessDenied | Found(parcel: Parcel) {
    function HttpStatus(): int {
      match this
      case NotFound => 404
      case AccessDenied => 403
      case Found(_) => 200
    }
  }

  /** A missing parcel is 404; a parcel someone else sent is 403; the
      caller's own parcel is returned as stored. */
  function FetchParcel(parcels: map<int, Parcel>, id: int, callerId: string): (r: FetchResponse)
    ensures r.HttpStatus() == 404 <==> id !in parcels
    ensures r.HttpStatus() == 403 <==> id in parcels && parcels[id].senderId != callerId
    ensures r.HttpStatus() == 200 <==> id in parcels && parcels[id].senderId == callerId
    ensures r.Found? ==> r.parcel == parcels[id]
  {
    if id !in parcels then NotFound
    else if parcels[id].senderId != callerId then AccessDenied
    else Found(parcels[id])
  }
}
