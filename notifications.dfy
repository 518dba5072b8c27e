// server/notifications.ts: the text-message sender and the message composer.
// The messaging provider is not modelled; whether its call completes is a
// boolean the caller supplies, and the environment settings are a value.

module Notifications {
  import opened JsRuntime

  // ---------------------------------------------------------------------
  // Phone normalisation
  // ---------------------------------------------------------------------

  /** `to.replace(/\D/g, '')`: the ASCII digits of `s`, in order. */
  function StripNonDigits(s: string): (r: string)
    ensures |r| <= |s|
    ensures forall i :: 0 <= i < |r| ==> IsDigit(r[i])
  {
    if s == [] then ""
    else (if IsDigit(s[0]) then [s[0]] else []) + StripNonDigits(s[1..])
  }

  /** Stripping a string that is all digits leaves it as it is. */
  lemma {:induction false} StripAllDigits(s: string)
    requires forall i :: 0 <= i < |s| ==> IsDigit(s[i])
    ensures StripNonDigits(s) == s
  {
    if s != [] {
      StripAllDigits(s[1..]);
      assert s == [s[0]] + s[1..];
    }
  }

  /** Stripping distributes over concatenation. */
  lemma {:induction false} StripConcat(a: string, b: string)
    ensures StripNonDigits(a + b) == StripNonDigits(a) + StripNonDigits(b)
  {
    if a != [] {
      assert (a + b)[0] == a[0];
      assert (a + b)[1..] == a[1..] + b;
      StripConcat(a[1..], b);
      var head := if IsDigit(a[0]) then [a[0]] else [];
      assert StripNonDigits(a) == head + StripNonDigits(a[1..]);
      calc {
        StripNonDigits(a + b);
        head + StripNonDigits(a[1..] + b);
        head + (StripNonDigits(a[1..]) + StripNonDigits(b));
        (head + StripNonDigits(a[1..])) + StripNonDigits(b);
      }
    } else {
      assert a + b == b;
    }
  }

  /** Stripping drops a non-digit wherever it stands and keeps a digit in
      place; with `StripNonDigits("") == ""` this determines the function. */
  lemma StripOneCharacter(a: string, c: char, b: string)
    ensures StripNonDigits(a + [c] + b) ==
      StripNonDigits(a) + (if IsDigit(c) then [c] else []) + StripNonDigits(b)
  {
    StripConcat(a + [c], b);
    StripConcat(a, [c]);
    assert [c][1..] == [];
  }

  /** The national prefix the numbering plan uses. */
  const CountryCode := "27"

  /** The recipient number as it is handed to the provider: non-digits are
      dropped; a number that already starts with 27 gets a '+'; a leading
      trunk 0 is replaced by +27; anything else gets +27 in front. The
      result is "+27" followed only by digits. */
  function NormalizePhone(to: string): (r: string)
    ensures StartsWith(r, "+27")
    ensures forall i :: 1 <= i < |r| ==> IsDigit(r[i])
  {
    var digits := StripNonDigits(to);
    if StartsWith(digits, CountryCode) then "+" + digits
    else if StartsWith(digits, "0") then "+27" + digits[1..]
    else "+27" + digits
  }

  /** Normalising a normalised number changes nothing. */
  lemma NormalizePhoneIdempotent(to: string)
    ensures NormalizePhone(NormalizePhone(to)) == NormalizePhone(to)
  {
    var r := NormalizePhone(to);
    assert r == "+" + r[1..];
    StripConcat("+", r[1..]);
    StripAllDigits(r[1..]);
    assert StripNonDigits(r) == r[1..];
    assert StartsWith(r[1..], CountryCode);
  }

  /** Formatting characters in the input do not matter: only its digits do. */
  lemma NormalizePhoneSeesOnlyDigits(to: string)
    ensures NormalizePhone(StripNonDigits(to)) == NormalizePhone(to)
  {
    StripAllDigits(StripNonDigits(to));
  }

  /** A national number written with its trunk 0, with the country code,
      or (when it is not itself led by 0 or 27) bare, is handed to the
      provider as +27 followed by the national number. */
  lemma NormalizePhoneSpellings(national: string)
    requires forall i :: 0 <= i < |national| ==> IsDigit(national[i])
    ensures NormalizePhone("0" + national) == "+27" + national
    ensures NormalizePhone(CountryCode + national) == "+27" + national
    ensures !StartsWith(national, "0") && !StartsWith(national, CountryCode) ==>
      NormalizePhone(national) == "+27" + national
  {
    StripAllDigits(national);
    StripConcat("0", national);
    StripConcat(CountryCode, national);
    StripAllDigits("0");
    StripAllDigits(CountryCode);
    assert ("0" + national)[1..] == national;
    assert (CountryCode + national)[..2] == CountryCode;
    assert "+" + (CountryCode + national) == "+27" + national;
  }

  /** A non-digit anywhere in the number leaves the normalised number as it
      would be without it: formatting never adds a digit. */
  lemma NormalizePhoneIgnoresNonDigit(a: string, c: char, b: string)
    requires !IsDigit(c)
    ensures NormalizePhone(a + [c] + b) == NormalizePhone(a + b)
  {
    StripOneCharacter(a, c, b);
    StripConcat(a, b);
  }

  /** A number typed with a space and a dash is handed over as if typed
      without them. */
  lemma NormalizePhoneSeparators(a: string, b: string, c: string)
    ensures NormalizePhone(a + " " + b + "-" + c) == NormalizePhone(a + b + c)
  {
    NormalizePhoneIgnoresNonDigit(a + " " + b, '-', c);
    assert a + " " + b + "-" + c == (a + " " + b) + ['-'] + c;
    NormalizePhoneIgnoresNonDigit(a, ' ', b + c);
    assert a + " " + b + c == a + [' '] + (b + c);
    assert a + (b + c) == a + b + c;
  }

  /** "0-1": the dash goes and the trunk 0 becomes +27. */
  lemma NormalizePhoneDashExample()
    ensures NormalizePhone("0-1") == "+271"
  {
    var digits := StripNonDigits("0-1");
    assert digits == "01";
    assert digits[..2] != CountryCode && digits[..1] == "0";
  }

  // ---------------------------------------------------------------------
  // Sending
  // ---------------------------------------------------------------------

  /** The three environment settings the sender reads. */
  datatype SmsConfig = SmsConfig(
    accountSid: Option<string>,
    authToken: Option<string>,
    phoneNumber: Option<string>)

  /** The provider client exists only when both credentials are set, and a
      message goes out only when the sender number is set as well. */
  predicate Configured(cfg: SmsConfig) {
    Truthy(cfg.accountSid) && Truthy(cfg.authToken) && Truthy(cfg.phoneNumber)
  }

  /** What is handed to the provider. */
  datatype SmsRequest = SmsRequest(body: string, from: string, to: string)

  /** What one call of the sender does: nothing, or one provider call
      whose completion is recorded. */
  datatype SendResult = Skipped | Attempted(request: SmsRequest, completed: bool) {
    /** The boolean the sender resolves to. */
    predicate Succeeded() {
      Attempted? && completed
    }
  }

  /** `sendSMSNotification(to, message)` with the provider's behaviour given
      as `providerCompletes`. An unconfigured sender makes no provider call;
      a configured one makes exactly one, to the normalised number, from the
      configured number, with the message unchanged. The outcome is true
      exactly when the sender is configured and the provider call completes;
      a provider error becomes false and never escapes. */
  function SendSms(cfg: SmsConfig, to: string, message: string, providerCompletes: bool): (r: SendResult)
    ensures r.Skipped? <==> !Configured(cfg)
    ensures r.Attempted? ==>
      r.request.to == NormalizePhone(to) && r.request.from == cfg.phoneNumber.value
      && r.request.body == message && StartsWith(r.request.to, "+27")
    ensures r.Succeeded() <==> Configured(cfg) && providerCompletes
  {
    if !Configured(cfg) then Skipped
    else Attempted(SmsRequest(message, cfg.phoneNumber.value, NormalizePhone(to)), providerCompletes)
  }

  // ---------------------------------------------------------------------
  // Message text
  // ---------------------------------------------------------------------

  /** The statuses that have their own template. */
  const TemplateStatuses: set<string> :=
    {"collected", "in_transit", "out_for_delivery", "delivered", "delayed"}

  /** `location ? ` at ${location}` : ''`. */
  function LocationSuffix(location: Option<string>): string {
    if Truthy(location) then " at " + location.value else ""
  }

  const TrackLink := ". Track: rapidtransit.app/track/"

  function CollectedText(tn: string, name: string): string {
    "Hi " + name + ", your parcel " + tn
    + " has been collected and is now in transit via RapidTransit."
  }

  function InTransitText(tn: string, location: Option<string>): string {
    "Update: Your parcel " + tn
    + (" is currently in transit" + LocationSuffix(location) + TrackLink + tn)
  }

  function OutForDeliveryText(tn: string, name: string): string {
    "Great news " + name + "! Your parcel " + tn
    + " is out for delivery and will arrive shortly."
  }

  function DeliveredText(tn: string): string {
    "Delivered! Your parcel " + tn
    + " has been successfully delivered. Thank you for using RapidTransit!"
  }

  function DelayedText(tn: string, location: Option<string>): string {
    "Update: Your parcel " + tn
    + (" is experiencing a slight delay" + LocationSuffix(location) + ". We'll keep you updated.")
  }

  /** The text used for every status without a template. */
  function FallbackText(tn: string, status: string): string {
    "Update on your parcel " + tn + (": Status changed to " + status + TrackLink + tn)
  }

  /** The per-status template table; `None` for a status it has no key for. */
  function Template(tn: string, status: string, name: string, location: Option<string>): Option<string> {
    if status == "collected" then Some(CollectedText(tn, name))
    else if status == "in_transit" then Some(InTransitText(tn, location))
    else if status == "out_for_delivery" then Some(OutForDeliveryText(tn, name))
    else if status == "delivered" then Some(DeliveredText(tn))
    else if status == "delayed" then Some(DelayedText(tn, location))
    else None
  }

  /** `createParcelNotificationMessage`: the status's template, or the
      generic text when the status has none. The generic text is sent
      exactly for the statuses without a template. */
  function ComposeMessage(tn: string, status: string, name: string, location: Option<string>): (r: string)
    ensures status !in TemplateStatuses ==> r == FallbackText(tn, status)
    ensures status in TemplateStatuses ==> r != FallbackText(tn, status)
  {
    TemplateNotFallback(tn, status, name, location);
    Template(tn, status, name, location).GetOr(FallbackText(tn, status))
  }

  /** A templated text never equals the generic text: only the generic
      text opens with "Update on ". */
  lemma TemplateNotFallback(tn: string, status: string, name: string, location: Option<string>)
    ensures Template(tn, status, name, location).Some? <==> status in TemplateStatuses
    ensures Template(tn, status, name, location).Some? ==>
      !StartsWith(Template(tn, status, name, location).value, "Update on ")
    ensures Template(tn, status, name, location).Some? ==>
      Template(tn, status, name, location).value != FallbackText(tn, status)
  {
    FallbackTextShape(tn, status);
    if status == "collected" {
      CollectedTextShape(tn, name);
    } else if status == "in_transit" {
      InTransitTextShape(tn, location);
    } else if status == "out_for_delivery" {
      OutForDeliveryTextShape(tn, name);
    } else if status == "delivered" {
      DeliveredTextShape(tn);
    } else if status == "delayed" {
      DelayedTextShape(tn, location);
    }
  }

  // What each text mentions, and how each templated text opens.

  lemma CollectedTextShape(tn: string, name: string)
    ensures Includes(CollectedText(tn, name), tn) && Includes(CollectedText(tn, name), name)
    ensures !StartsWith(CollectedText(tn, name), "Update on ")
  {
    var opening := "Hi ";
    var middle := ", your parcel ";
    var rest := " has been collected and is now in transit via RapidTransit.";
    IncludesMiddle(opening + name + middle, tn, rest);
    IncludesLast(opening, name);
    IncludesExtended("", opening + name, middle, name);
    IncludesExtended("", opening + name + middle, tn, name);
    IncludesExtended("", opening + name + middle + tn, rest, name);
    DiffersAt(opening + name + middle + tn, rest, "Update on ", 0);
  }

  lemma OutForDeliveryTextShape(tn: string, name: string)
    ensures Includes(OutForDeliveryText(tn, name), tn) && Includes(OutForDeliveryText(tn, name), name)
    ensures !StartsWith(OutForDeliveryText(tn, name), "Update on ")
  {
    var opening := "Great news ";
    var middle := "! Your parcel ";
    var rest := " is out for delivery and will arrive shortly.";
    IncludesMiddle(opening + name + middle, tn, rest);
    IncludesLast(opening, name);
    IncludesExtended("", opening + name, middle, name);
    IncludesExtended("", opening + name + middle, tn, name);
    IncludesExtended("", opening + name + middle + tn, rest, name);
    DiffersAt(opening + name + middle + tn, rest, "Update on ", 0);
  }

  lemma InTransitTextShape(tn: string, location: Option<string>)
    ensures Includes(InTransitText(tn, location), tn)
    ensures Truthy(location) ==> Includes(InTransitText(tn, location), " at " + location.value)
    ensures !StartsWith(InTransitText(tn, location), "Update on ")
  {
    var opening := "Update: Your parcel ";
    var middle := " is currently in transit";
    var loc := LocationSuffix(location);
    var rest := middle + loc + TrackLink + tn;
    IncludesLast(opening, tn);
    IncludesExtended("", opening + tn, rest, tn);
    IncludesLast(middle, loc);
    IncludesExtended("", middle + loc, TrackLink, loc);
    IncludesExtended("", middle + loc + TrackLink, tn, loc);
    IncludesExtended(opening + tn, rest, "", loc);
    DiffersAt(opening + tn, rest, "Update on ", 6);
  }

  lemma DelayedTextShape(tn: string, location: Option<string>)
    ensures Includes(DelayedText(tn, location), tn)
    ensures Truthy(location) ==> Includes(DelayedText(tn, location), " at " + location.value)
    ensures !StartsWith(DelayedText(tn, location), "Update on ")
  {
    var opening := "Update: Your parcel ";
    var middle := " is experiencing a slight delay";
    var loc := LocationSuffix(location);
    var rest := middle + loc + ". We'll keep you updated.";
    IncludesLast(opening, tn);
    IncludesExtended("", opening + tn, rest, tn);
    IncludesLast(middle, loc);
    IncludesExtended("", middle + loc, ". We'll keep you updated.", loc);
    IncludesExtended(opening + tn, rest, "", loc);
    DiffersAt(opening + tn, rest, "Update on ", 6);
  }

  lemma DeliveredTextShape(tn: string)
    ensures Includes(DeliveredText(tn), tn)
    ensures !StartsWith(DeliveredText(tn), "Update on ")
  {
    var opening := "Delivered! Your parcel ";
    var rest := " has been successfully delivered. Thank you for using RapidTransit!";
    IncludesMiddle(opening, tn, rest);
    DiffersAt(opening + tn, rest, "Update on ", 0);
  }

  /** Every message, templated or generic, names the tracking number. */
  lemma ComposeMessageIncludesTrackingNumber(tn: string, status: string, name: string,
                                             location: Option<string>)
    ensures Includes(ComposeMessage(tn, status, name, location), tn)
  {
    CollectedTextShape(tn, name);
    InTransitTextShape(tn, location);
    OutForDeliveryTextShape(tn, name);
    DeliveredTextShape(tn);
    DelayedTextShape(tn, location);
    FallbackTextShape(tn, status);
  }

  /** The generic text opens with "Update on " and names the tracking
      number and the status. */
  lemma FallbackTextShape(tn: string, status: string)
    ensures StartsWith(FallbackText(tn, status), "Update on ")
    ensures Includes(FallbackText(tn, status), status) && Includes(FallbackText(tn, status), tn)
  {
    var opening := "Update on your parcel ";
    var middle := ": Status changed to ";
    var rest := middle + status + TrackLink + tn;
    IncludesLast(opening, tn);
    IncludesExtended("", opening + tn, rest, tn);
    IncludesLast(middle, status);
    IncludesExtended("", middle + status, TrackLink, status);
    IncludesExtended("", middle + status + TrackLink, tn, status);
    IncludesExtended(opening + tn, rest, "", status);
    assert opening[..10] == "Update on ";
    StartsWithAppend(opening, tn, "Update on ");
    StartsWithAppend(opening + tn, rest, "Update on ");
  }

  /** Every status without a template gets the generic text, which opens
      with "Update on " and names the status as given (including "pending"
      and "cancelled"). */
  lemma ComposeMessageFallback(tn: string, status: string, name: string, location: Option<string>)
    requires status !in TemplateStatuses
    ensures ComposeMessage(tn, status, name, location) == FallbackText(tn, status)
    ensures StartsWith(ComposeMessage(tn, status, name, location), "Update on ")
    ensures Includes(ComposeMessage(tn, status, name, location), status)
  {
    FallbackTextShape(tn, status);
  }

  /** No templated text opens like the generic one, so the generic text is
      recognisable by its first words. */
  lemma ComposeMessageTemplatedOpening(tn: string, status: string, name: string,
                                       location: Option<string>)
    requires status in TemplateStatuses
    ensures !StartsWith(ComposeMessage(tn, status, name, location), "Update on ")
  {
    TemplateNotFallback(tn, status, name, location);
  }

  /** The location suffix belongs to the in-transit and delayed texts only:
      every other status ignores the location, an empty or absent location
      adds nothing, and those two statuses show " at <location>" whenever
      the location is non-empty. */
  lemma ComposeMessageLocation(tn: string, status: string, name: string,
                               l1: Option<string>, l2: Option<string>)
    ensures status != "in_transit" && status != "delayed" ==>
      ComposeMessage(tn, status, name, l1) == ComposeMessage(tn, status, name, l2)
    ensures !Truthy(l1) && !Truthy(l2) ==>
      ComposeMessage(tn, status, name, l1) == ComposeMessage(tn, status, name, l2)
    ensures (status == "in_transit" || status == "delayed") && Truthy(l1) ==>
      Includes(ComposeMessage(tn, status, name, l1), " at " + l1.value)
  {
    InTransitTextShape(tn, l1);
    DelayedTextShape(tn, l1);
  }

  /** Only the collected and out-for-delivery texts greet the recipient by
      name. */
  lemma ComposeMessageName(tn: string, status: string, n1: string, n2: string,
                           location: Option<string>)
    ensures status != "collected" && status != "out_for_delivery" ==>
      ComposeMessage(tn, status, n1, location) == ComposeMessage(tn, status, n2, location)
    ensures status == "collected" || status == "out_for_delivery" ==>
      Includes(ComposeMessage(tn, status, n1, location), n1)
  {
    CollectedTextShape(tn, n1);
    OutForDeliveryTextShape(tn, n1);
  }

  /** A delivery text confirms the delivery in its first word. */
  lemma DeliveredMessageExample()
    ensures StartsWith(ComposeMessage("RT-2024-000123", "delivered", "Jane", None), "Delivered!")
    ensures Includes(ComposeMessage("RT-2024-000123", "delivered", "Jane", None), "RT-2024-000123")
  {
    ComposeMessageIncludesTrackingNumber("RT-2024-000123", "delivered", "Jane", None);
  }
}
