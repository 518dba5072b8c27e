// client/src/components/ParcelList.tsx: the pure helpers behind the "Recent
// Parcels" card — the status badge text, the route line, the five-item cut
// and the date line. Rendering and data fetching are not modelled.

module ParcelList {
  import opened JsRuntime
  import opened Schema

  // ---------------------------------------------------------------------
  // Status badge text
  // ---------------------------------------------------------------------

  /** `c.toUpperCase()` on ASCII: lower-case letters become upper-case,
      everything else is unchanged. */
  function UpperChar(c: char): (u: char)
    ensures u != '_' <==> c != '_'
    ensures u == ' ' <==> c == ' '
  {
    if 'a' <= c <= 'z' then (c as int - 32) as char else c
  }

  /** `word.charAt(0).toUpperCase() + word.slice(1)`. */
  function Capitalize(word: string): string {
    if word == "" then "" else [UpperChar(word[0])] + word[1..]
  }

  /** `words.map(Capitalize)`. */
  function CapitalizeAll(words: seq<string>): (r: seq<string>)
    ensures |r| == |words|
  {
    if words == [] then [] else [Capitalize(words[0])] + CapitalizeAll(words[1..])
  }

  /** The character the badge shows at position i of a status: an
      underscore becomes a space, the first character of every word is
      upper-cased, and every other character is kept. */
  function FormattedChar(status: string, i: int): char
    requires 0 <= i < |status|
  {
    if status[i] == '_' then ' '
    else if i == 0 || status[i - 1] == '_' then UpperChar(status[i])
    else status[i]
  }

  /** The same transformation, read left to right; `atStart` says whether
      the next character begins a word. */
  function Wordwise(s: string, atStart: bool): (r: string)
    ensures |r| == |s|
  {
    if s == [] then ""
    else
      [if s[0] == '_' then ' ' else if atStart then UpperChar(s[0]) else s[0]]
      + Wordwise(s[1..], s[0] == '_')
  }

  lemma {:induction false} WordwiseChars(s: string, atStart: bool, i: nat)
    requires i < |s|
    ensures Wordwise(s, atStart)[i] ==
      if s[i] == '_' then ' '
      else if (i == 0 && atStart) || (i > 0 && s[i - 1] == '_') then UpperChar(s[i])
      else s[i]
  {
    if i > 0 {
      WordwiseChars(s[1..], s[0] == '_', i - 1);
    }
  }

  lemma CapitalizeAllCons(w: string, ws: seq<string>)
    ensures CapitalizeAll([w] + ws) == [Capitalize(w)] + CapitalizeAll(ws)
  {
    assert ([w] + ws)[1..] == ws;
  }

  /** split / capitalise / join equals the left-to-right transformation,
      both for the whole string and with its first word left alone. */
  lemma {:induction false} SplitCapitalizeJoin(s: string)
    ensures Join(CapitalizeAll(Split(s, '_')), ' ') == Wordwise(s, true)
    ensures var parts := Split(s, '_');
      Join([parts[0]] + CapitalizeAll(parts[1..]), ' ') == Wordwise(s, false)
    decreases |s|
  {
    if s != [] {
      SplitCapitalizeJoin(s[1..]);
      if s[0] == '_' {
        UnderscoreStep(s);
      } else {
        LetterStep(s);
      }
    }
  }

  /** The inductive step of `SplitCapitalizeJoin` for a leading underscore. */
  lemma UnderscoreStep(s: string)
    requires s != [] && s[0] == '_'
    requires Join(CapitalizeAll(Split(s[1..], '_')), ' ') == Wordwise(s[1..], true)
    ensures Join(CapitalizeAll(Split(s, '_')), ' ') == Wordwise(s, true)
    ensures var parts := Split(s, '_');
      Join([parts[0]] + CapitalizeAll(parts[1..]), ' ') == Wordwise(s, false)
  {
    var rest := Split(s[1..], '_');
    var parts := [""] + rest;
    assert Split(s, '_') == parts;
    assert parts[1..] == rest;
    CapitalizeAllCons("", rest);
    assert ([""] + CapitalizeAll(rest))[1..] == CapitalizeAll(rest);
  }

  /** The inductive step of `SplitCapitalizeJoin` for any other first
      character. */
  lemma LetterStep(s: string)
    requires s != [] && s[0] != '_'
    requires var rest := Split(s[1..], '_');
      Join([rest[0]] + CapitalizeAll(rest[1..]), ' ') == Wordwise(s[1..], false)
    ensures Join(CapitalizeAll(Split(s, '_')), ' ') == Wordwise(s, true)
    ensures var parts := Split(s, '_');
      Join([parts[0]] + CapitalizeAll(parts[1..]), ' ') == Wordwise(s, false)
  {
    var rest := Split(s[1..], '_');
    var c := s[0];
    var parts := [[c] + rest[0]] + rest[1..];
    assert Split(s, '_') == parts;
    assert parts[1..] == rest[1..];
    CapitalizeAllCons([c] + rest[0], rest[1..]);
    assert Capitalize([c] + rest[0]) == [UpperChar(c)] + rest[0];
    JoinConsFirst(UpperChar(c), rest[0], CapitalizeAll(rest[1..]), ' ');
    JoinConsFirst(c, rest[0], CapitalizeAll(rest[1..]), ' ');
  }

  /** `formatStatus`: split on '_', capitalise each piece, join with single
      spaces. The result has the input's length; each underscore becomes a
      space, the first letter of each word is upper-cased, and nothing else
      changes. */
  function FormatStatus(status: string): (r: string)
    ensures |r| == |status|
    ensures forall i :: 0 <= i < |r| ==> r[i] == FormattedChar(status, i)
  {
    SplitCapitalizeJoin(status);
    var r := Join(CapitalizeAll(Split(status, '_')), ' ');
    assert forall i :: 0 <= i < |r| ==> r[i] == FormattedChar(status, i) by {
      forall i | 0 <= i < |r| ensures r[i] == FormattedChar(status, i) {
        WordwiseChars(status, true, i);
      }
    }
    r
  }

  /** The badge never shows an underscore, and shows a space exactly where
      the status had an underscore or a space. */
  lemma FormatStatusSpaces(status: string)
    ensures '_' !in FormatStatus(status)
    ensures forall i :: 0 <= i < |status| ==>
      (FormatStatus(status)[i] == ' ' <==> status[i] == '_' || status[i] == ' ')
  {
    var r := FormatStatus(status);
    forall i | 0 <= i < |r| ensures r[i] != '_' {
      assert r[i] == FormattedChar(status, i);
    }
  }

  /** Formatting a formatted status changes nothing. */
  lemma FormatStatusIdempotent(status: string)
    ensures FormatStatus(FormatStatus(status)) == FormatStatus(status)
  {
    var r := FormatStatus(status);
    FormatStatusSpaces(status);
    var rr := FormatStatus(r);
    forall i | 0 <= i < |r| ensures rr[i] == r[i] {
      assert r[i] != '_';
      if i > 0 { assert r[i - 1] != '_'; }
    }
  }

  /** "out_for_delivery" reads "Out For Delivery". */
  lemma FormatStatusExample(status: string)
    requires status == "out_for_delivery"
    ensures FormatStatus(status) == "Out For Delivery"
  {
    var r := FormatStatus(status);
    var expected := "Out For Delivery";
    forall i | 0 <= i < |expected| ensures r[i] == expected[i] {
      assert r[i] == FormattedChar(status, i);
      if i == 0 || i == 4 || i == 8 {
        assert r[i] == UpperChar(status[i]);
      } else if i == 3 || i == 7 {
        assert r[i] == ' ';
      } else {
        assert r[i] == status[i];
      }
    }
  }

  // ---------------------------------------------------------------------
  // Route line
  // ---------------------------------------------------------------------

  lemma TrimKeepsOut(s: string, c: char)
    requires c !in s
    ensures c !in Trim(s)
  {
  }

  /** The city shown for an address: the second-to-last comma-separated
      piece, trimmed; or, when there is one piece only or that piece is
      blank, the first piece as it is. The city never contains a comma. */
  function City(address: string): (city: string)
    ensures ',' !in city
    ensures var parts := Split(address, ',');
      |parts| >= 2 && Trim(parts[|parts| - 2]) != "" ==> city == Trim(parts[|parts| - 2])
    ensures var parts := Split(address, ',');
      !(|parts| >= 2 && Trim(parts[|parts| - 2]) != "") ==> city == parts[0]
  {
    var parts := Split(address, ',');
    var candidate :=
      if |parts| >= 2 then
        TrimKeepsOut(parts[|parts| - 2], ',');
        Trim(parts[|parts| - 2])
      else "";
    if candidate != "" then candidate else parts[0]
  }

  /** An address without commas is its own city. */
  lemma CityOfPlainAddress(address: string)
    requires ',' !in address
    ensures City(address) == address
  {
    SplitWithoutSeparator(address, ',');
  }

  /** A "street, city, postcode" address shows its middle piece, trimmed,
      unless that piece is blank. */
  lemma CityOfThreePieces(street: string, city: string, postcode: string)
    requires ',' !in street && ',' !in city && ',' !in postcode
    ensures City(street + [','] + city + [','] + postcode) ==
      if Trim(city) != "" then Trim(city) else street
  {
    SplitThreePieces(street, city, postcode);
  }

  lemma SplitThreePieces(street: string, city: string, postcode: string)
    requires ',' !in street && ',' !in city && ',' !in postcode
    ensures Split(street + [','] + city + [','] + postcode, ',') == [street, city, postcode]
  {
    assert street + [','] + city + [','] + postcode == street + [','] + (city + [','] + postcode);
    SplitAfterPiece(street, ',', city + [','] + postcode);
    SplitAfterPiece(city, ',', postcode);
    SplitWithoutSeparator(postcode, ',');
  }

  /** The route line: the pickup city, an arrow, the delivery city. */
  function FormatRoute(pickup: string, delivery: string): (r: string)
    ensures r == City(pickup) + " → " + City(delivery)
    ensures ',' !in r
  {
    City(pickup) + " → " + City(delivery)
  }

  /** With no commas in either address, the route shows both in full. */
  lemma FormatRoutePlainAddresses(pickup: string, delivery: string)
    requires ',' !in pickup && ',' !in delivery
    ensures FormatRoute(pickup, delivery) == pickup + " → " + delivery
  {
    CityOfPlainAddress(pickup);
    CityOfPlainAddress(delivery);
  }

  // ---------------------------------------------------------------------
  // List cut and date line
  // ---------------------------------------------------------------------

  const MaxListed := 5

  /** `parcels.slice(0, 5)`: the first five parcels in the order given. */
  function Listed(parcels: seq<Parcel>): (shown: seq<Parcel>)
    ensures |shown| == if |parcels| < MaxListed then |parcels| else MaxListed
    ensures shown == parcels[..|shown|]
  {
    Take(parcels, MaxListed)
  }

  /** Which date the row shows under the badge. */
  datatype DateLine = DeliveredOn(at: Timestamp) | Eta(at: Timestamp) | CreatedOn(at: Timestamp)

  /** The delivery date if there is one, else the estimated delivery date
      if there is one, else the creation date. */
  function DateLineOf(p: Parcel): (line: DateLine)
    ensures line.DeliveredOn? <==> p.deliveredAt.Some?
    ensures line.Eta? <==> p.deliveredAt.None? && p.estimatedDeliveryAt.Some?
    ensures line.CreatedOn? <==> p.deliveredAt.None? && p.estimatedDeliveryAt.None?
    ensures line.DeliveredOn? ==> p.deliveredAt == Some(line.at)
    ensures line.Eta? ==> p.estimatedDeliveryAt == Some(line.at)
    ensures line.CreatedOn? ==> line.at == p.createdAt
  {
    if p.deliveredAt.Some? then DeliveredOn(p.deliveredAt.value)
    else if p.estimatedDeliveryAt.Some? then Eta(p.estimatedDeliveryAt.value)
    else CreatedOn(p.createdAt)
  }
}
