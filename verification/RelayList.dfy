/**
 Regrouping the server's relay list: locations become countries with cities, and every relay is
 filed under its city.

 Lowercasing is left abstract: any function on strings that treats the parts around a dash
 separately will do. The locations come in the order of the server's map; the resulting countries
 are a map from country code, whose key order the source then turns into a list.
 */
module RelayList {
  import opened Common

  datatype Location = Location(city: string, country: string, latitude: real, longitude: real)

  datatype Features = Features(daita: bool, quic: Option<string>, lwo: bool)

  /** Which of the three lists a relay comes from, with what only WireGuard relays have. */
  datatype Kind = OpenVpn | Wireguard(publicKey: nat, daita: bool, extraAddresses: seq<nat>, features: Features) | Bridge

  datatype ServerRelay = ServerRelay(hostname: string, active: bool, owned: bool, location: string, provider: string,
                                     ipv4: nat, ipv6: Option<nat>, weight: nat, includeInCountry: bool, kind: Kind)

  datatype EndpointData =
    | OpenVpnData
    | WireguardData(publicKey: nat, daita: bool, extraAddresses: set<nat>, quic: Option<string>, lwo: bool)
    | BridgeData

  datatype RelayLocation = RelayLocation(country: string, countryCode: string, city: string, cityCode: string,
                                         latitude: real, longitude: real)

  datatype Relay = Relay(hostname: string, active: bool, owned: bool, provider: string, ipv4: nat, ipv6: Option<nat>,
                         weight: nat, includeInCountry: bool, endpoint: EndpointData, location: RelayLocation)

  datatype City = City(name: string, code: string, latitude: real, longitude: real, relays: seq<Relay>)

  datatype Country = Country(name: string, code: string, cities: seq<City>)

  type Countries = map<string, Country>

  datatype Key = Key(country: string, city: string)

  // ----- location codes

  function UntilDash(s: string): (r: string)
    ensures r <= s && '-' !in r
    ensures '-' in s ==> |r| < |s| && s[|r|] == '-'
    ensures '-' !in s ==> r == s
  {
    if s == [] || s[0] == '-' then [] else [s[0]] + UntilDash(s[1..])
  }

  /** `split_location_code`: the first two of the parts between dashes. */
  function SplitLocationCode(s: string): Option<Key> {
    if '-' !in s then None
    else
      var country := UntilDash(s);
      Some(Key(country, UntilDash(s[|country| + 1..])))
  }

  /** The parts are those before the first dash and between the first two; without a dash there are none. */
  lemma SplitIsFirstTwoParts(country: string, city: string, rest: string)
    requires '-' !in country && '-' !in city
    ensures SplitLocationCode(country) == None
    ensures SplitLocationCode(country + "-" + city) == Some(Key(country, city))
    ensures SplitLocationCode(country + "-" + city + "-" + rest) == Some(Key(country, city))
  {
    UntilFirstDash(country, city);
    assert (country + "-" + city)[|country| + 1..] == city;
    UntilFirstDash(country, city + "-" + rest);
    UntilFirstDash(city, rest);
    var code := country + "-" + city + "-" + rest;
    assert code == country + "-" + (city + "-" + rest);
    assert code[|country| + 1..] == city + "-" + rest;
  }

  type Lower = string -> string

  /** Lowercasing works on the parts between dashes separately and adds no dash. */
  ghost predicate RespectsDashes(lower: Lower) {
    && (forall a: string, b: string :: lower(a + "-" + b) == lower(a) + "-" + lower(b))
    && (forall a: string | '-' !in a :: '-' !in lower(a))
  }

  lemma {:induction false} UntilFirstDash(a: string, b: string)
    requires '-' !in a
    ensures UntilDash(a + "-" + b) == a && '-' in a + "-" + b
  {
    var s := a + "-" + b;
    assert s[|a|] == '-';
    if a != [] {
      assert s[0] == a[0] && a[0] in a;
      assert s[1..] == a[1..] + "-" + b;
      UntilFirstDash(a[1..], b);
    }
  }

  lemma SplitAtDash(a: string, b: string)
    requires '-' !in a
    ensures var s := a + "-" + b;
            UntilDash(s) == a && '-' in s && |a| < |s| && s[|a| + 1..] == b
  {
    UntilFirstDash(a, b);
    assert (a + "-" + b)[|a| + 1..] == b;
  }

  lemma LowerAroundDash(lower: Lower, a: string, b: string)
    requires RespectsDashes(lower) && '-' !in a
    ensures lower(a + "-" + b) == lower(a) + "-" + lower(b) && '-' !in lower(a)
  {
  }

  lemma LowerCommutesWithUntilDash(lower: Lower, s: string)
    requires RespectsDashes(lower)
    ensures UntilDash(lower(s)) == lower(UntilDash(s))
    ensures '-' in s <==> '-' in lower(s)
    ensures '-' in s ==>
              var n := |UntilDash(s)|;
              var m := |UntilDash(lower(s))|;
              m < |lower(s)| && lower(s)[m + 1..] == lower(s[n + 1..])
  {
    if '-' in s {
      var a := UntilDash(s);
      var b := s[|a| + 1..];
      assert s == a + "-" + b;
      LowerAroundDash(lower, a, b);
      SplitAtDash(lower(a), lower(b));
    }
  }

  /** The key under which a location code is filed. */
  function LocationKey(lower: Lower, code: string): Option<Key> {
    match SplitLocationCode(code)
    case Some(Key(country, city)) => Some(Key(lower(country), lower(city)))
    case None => None
  }

  /** Lowercasing commutes with splitting, so that relays and locations agree on keys. */
  lemma LowerCommutesWithSplit(lower: Lower, s: string)
    requires RespectsDashes(lower)
    ensures SplitLocationCode(lower(s)) == LocationKey(lower, s)
  {
    LowerCommutesWithUntilDash(lower, s);
    if '-' in s {
      LowerCommutesWithUntilDash(lower, s[|UntilDash(s)| + 1..]);
    }
  }

  function AsciiLowerChar(c: char): (r: char)
    ensures r == '-' <==> c == '-'
  {
    if 'A' <= c <= 'Z' then c + (32 as char) else c
  }

  function AsciiLower(s: string): (r: string) {
    seq(|s|, i requires 0 <= i < |s| => AsciiLowerChar(s[i]))
  }

  /** ASCII lowercasing is one that respects dashes. */
  lemma AsciiLowerRespectsDashes()
    ensures RespectsDashes(AsciiLower)
  {
    forall a: string, b: string
      ensures AsciiLower(a + "-" + b) == AsciiLower(a) + "-" + AsciiLower(b)
    {
      AsciiLowerAroundDash(a, b);
    }
    forall a: string | '-' !in a
      ensures '-' !in AsciiLower(a)
    {
      assert forall i | 0 <= i < |a| :: AsciiLower(a)[i] == '-' ==> a[i] == '-';
    }
  }

  lemma AsciiLowerAroundDash(a: string, b: string)
    ensures AsciiLower(a + "-" + b) == AsciiLower(a) + "-" + AsciiLower(b)
  {
    var s, r := a + "-" + b, AsciiLower(a) + "-" + AsciiLower(b);
    assert |AsciiLower(s)| == |r|;
    forall i | 0 <= i < |s|
      ensures AsciiLower(s)[i] == r[i]
    {
      if i < |a| {
        assert s[i] == a[i];
      } else if i > |a| {
        assert s[i] == b[i - |a| - 1];
      }
    }
  }

  // ----- countries and cities

  function LocationToCity(location: Location, code: string): City {
    City(location.city, code, location.latitude, location.longitude, [])
  }

  /** The cities of a country, in the order of the locations. */
  function CitiesOf(lower: Lower, locations: seq<(string, Location)>, country: string): seq<City> {
    if locations == [] then []
    else
      var (code, location) := Last(locations);
      CitiesOf(lower, Front(locations), country) +
      match LocationKey(lower, code)
      case Some(key) => if key.country == country then [LocationToCity(location, key.city)] else []
      case None => []
  }

  predicate Names(lower: Lower, entry: (string, Location), country: string) {
    var key := LocationKey(lower, entry.0);
    key.Some? && key.value.country == country
  }

  /** The name of a country is that of its first location. */
  function NameOf(lower: Lower, locations: seq<(string, Location)>, country: string): string {
    if locations == [] then ""
    else if Names(lower, locations[0], country) then locations[0].1.country
    else NameOf(lower, locations[1..], country)
  }

  function CountryCodes(lower: Lower, locations: seq<(string, Location)>): set<string> {
    set i | 0 <= i < |locations| && LocationKey(lower, locations[i].0).Some? ::
      LocationKey(lower, locations[i].0).value.country
  }

  /** What the locations alone give: every country with its cities, and no relays. */
  function Regions(lower: Lower, locations: seq<(string, Location)>): Countries {
    map country | country in CountryCodes(lower, locations) ::
      Country(NameOf(lower, locations, country), country, CitiesOf(lower, locations, country))
  }

  lemma {:induction false} NameOfSnoc(lower: Lower, locations: seq<(string, Location)>, entry: (string, Location),
                                        country: string)
    ensures NameOf(lower, locations + [entry], country) ==
            if country in CountryCodes(lower, locations) then NameOf(lower, locations, country)
            else if Names(lower, entry, country) then entry.1.country else ""
  {
    if locations == [] {
      assert locations + [entry] == [entry] && [entry][1..] == [];
    } else {
      assert (locations + [entry])[1..] == locations[1..] + [entry];
      NameOfSnoc(lower, locations[1..], entry, country);
      CountryCodesHead(lower, locations);
    }
  }

  lemma CountryCodesHead(lower: Lower, locations: seq<(string, Location)>)
    requires locations != []
    ensures forall c :: c in CountryCodes(lower, locations) <==>
                        Names(lower, locations[0], c) || c in CountryCodes(lower, locations[1..])
  {
    assert locations == [locations[0]] + locations[1..];
    forall c | c in CountryCodes(lower, locations[1..])
      ensures c in CountryCodes(lower, locations)
    {
      var i :| 0 <= i < |locations[1..]| && Names(lower, locations[1..][i], c);
      assert locations[i + 1] == locations[1..][i];
    }
  }

  lemma CountryCodesSnoc(lower: Lower, locations: seq<(string, Location)>, entry: (string, Location))
    ensures forall c :: c in CountryCodes(lower, locations + [entry]) <==>
                        c in CountryCodes(lower, locations) || Names(lower, entry, c)
  {
    var all := locations + [entry];
    assert all[|locations|] == entry;
    assert forall i | 0 <= i < |locations| :: all[i] == locations[i];
  }

  // ----- filing relays

  /** Where a relay goes: a country and the position of a city in it. */
  datatype Slot = Slot(country: string, index: nat)

  /** The first city with the given code. */
  function CityIndex(cities: seq<City>, code: string): (r: Option<nat>)
    ensures r.Some? ==> r.value < |cities| && cities[r.value].code == code
    ensures r.Some? ==> forall j | 0 <= j < r.value :: cities[j].code != code
    ensures r.None? ==> forall j | 0 <= j < |cities| :: cities[j].code != code
  {
    if cities == [] then None
    else if cities[0].code == code then Some(0)
    else
      var rest := CityIndex(cities[1..], code);
      assert forall j | 0 < j < |cities| :: cities[j] == cities[1..][j - 1];
      if rest.Some? then Some(rest.value + 1) else None
  }

  /** The slot of a relay; `relay.location` is lowercased as a whole before it is split. */
  function Target(countries: Countries, lower: Lower, relay: ServerRelay): (r: Option<Slot>)
    ensures r.Some? ==> r.value.country in countries && r.value.index < |countries[r.value.country].cities|
  {
    match SplitLocationCode(lower(relay.location))
    case None => None
    case Some(Key(country, city)) =>
      if country !in countries then None
      else match CityIndex(countries[country].cities, city)
        case None => None
        case Some(j) => Some(Slot(country, j))
  }

  function Endpoint(kind: Kind): EndpointData {
    match kind
    case OpenVpn => OpenVpnData
    case Bridge => BridgeData
    case Wireguard(publicKey, daita, extra, features) =>
      WireguardData(publicKey, features.daita || daita, set i | 0 <= i < |extra| :: extra[i], features.quic, features.lwo)
  }

  function LocationIn(country: Country, city: City): RelayLocation {
    RelayLocation(country.name, country.code, city.name, city.code, city.latitude, city.longitude)
  }

  function IntoRelay(lower: Lower, relay: ServerRelay, location: RelayLocation): Relay {
    Relay(lower(relay.hostname), relay.active, relay.owned, relay.provider, relay.ipv4, relay.ipv6, relay.weight,
          relay.includeInCountry, Endpoint(relay.kind), location)
  }

  /** The relays that belong in a slot, in input order. */
  function Filed(base: Countries, lower: Lower, relays: seq<ServerRelay>, slot: Slot): seq<Relay>
    requires slot.country in base && slot.index < |base[slot.country].cities|
  {
    if relays == [] then []
    else
      var relay := Last(relays);
      var country := base[slot.country];
      Filed(base, lower, Front(relays), slot) +
      if Target(base, lower, relay) == Some(slot)
      then [IntoRelay(lower, relay, LocationIn(country, country.cities[slot.index]))] else []
  }

  /** A city with the given relays added to it. */
  function WithFiled(base: Countries, lower: Lower, relays: seq<ServerRelay>, slot: Slot): City
    requires slot.country in base && slot.index < |base[slot.country].cities|
  {
    var city := base[slot.country].cities[slot.index];
    city.(relays := city.relays + Filed(base, lower, relays, slot))
  }

  function FilledCountry(base: Countries, lower: Lower, relays: seq<ServerRelay>, c: string): Country
    requires c in base
  {
    base[c].(cities := seq(|base[c].cities|,
                           j requires 0 <= j < |base[c].cities| => WithFiled(base, lower, relays, Slot(c, j))))
  }

  /** All countries with the given relays added, each to its city. */
  function Filled(base: Countries, lower: Lower, relays: seq<ServerRelay>): Countries {
    map c | c in base :: FilledCountry(base, lower, relays, c)
  }

  /** The countries after filing one more relay, as the source does it in place. */
  function FileOne(countries: Countries, lower: Lower, relay: ServerRelay): Countries {
    match Target(countries, lower, relay)
    case None => countries
    case Some(Slot(c, j)) =>
      var country := countries[c];
      var city := country.cities[j];
      var filed := city.(relays := city.relays + [IntoRelay(lower, relay, LocationIn(country, city))]);
      countries[c := country.(cities := country.cities[j := filed])]
  }

  lemma {:induction false} CityIndexByCode(a: seq<City>, b: seq<City>, code: string)
    requires |a| == |b| && forall j | 0 <= j < |a| :: a[j].code == b[j].code
    ensures CityIndex(a, code) == CityIndex(b, code)
  {
    if a != [] {
      CityIndexByCode(a[1..], b[1..], code);
    }
  }

  /** Filing relays does not change where others go. */
  lemma TargetOfFilled(base: Countries, lower: Lower, relays: seq<ServerRelay>, relay: ServerRelay)
    ensures Target(Filled(base, lower, relays), lower, relay) == Target(base, lower, relay)
  {
    var key := SplitLocationCode(lower(relay.location));
    if key.Some? && key.value.country in base {
      var c := key.value.country;
      CityIndexByCode(Filled(base, lower, relays)[c].cities, base[c].cities, key.value.city);
    }
  }

  lemma FilledNone(base: Countries, lower: Lower)
    ensures Filled(base, lower, []) == base
  {
    forall c | c in base
      ensures FilledCountry(base, lower, [], c) == base[c]
    {
      assert forall j | 0 <= j < |base[c].cities| :: WithFiled(base, lower, [], Slot(c, j)) == base[c].cities[j];
      assert FilledCountry(base, lower, [], c).cities == base[c].cities;
    }
  }

  lemma FiledSnoc(base: Countries, lower: Lower, relays: seq<ServerRelay>, relay: ServerRelay, slot: Slot)
    requires slot.country in base && slot.index < |base[slot.country].cities|
    ensures var country := base[slot.country];
            Filed(base, lower, relays + [relay], slot) ==
            Filed(base, lower, relays, slot) +
            if Target(base, lower, relay) == Some(slot)
            then [IntoRelay(lower, relay, LocationIn(country, country.cities[slot.index]))] else []
  {
    assert Front(relays + [relay]) == relays;
  }

  /** One city after filing one more relay. */
  lemma FiledCitySnoc(base: Countries, lower: Lower, relays: seq<ServerRelay>, relay: ServerRelay, slot: Slot)
    requires slot.country in base && slot.index < |base[slot.country].cities|
    ensures var filled := Filled(base, lower, relays);
            var target := Target(base, lower, relay);
            var city := filled[slot.country].cities[slot.index];
            WithFiled(base, lower, relays + [relay], slot) ==
            if target == Some(slot)
            then city.(relays := city.relays + [IntoRelay(lower, relay, LocationIn(filled[slot.country], city))])
            else city
  {
    FiledSnoc(base, lower, relays, relay, slot);
    assert Filled(base, lower, relays)[slot.country].cities[slot.index] == WithFiled(base, lower, relays, slot);
  }

  lemma FiledCountrySnoc(base: Countries, lower: Lower, relays: seq<ServerRelay>, relay: ServerRelay, c: string)
    requires c in base
    ensures FileOne(Filled(base, lower, relays), lower, relay)[c] == FilledCountry(base, lower, relays + [relay], c)
  {
    var filled := Filled(base, lower, relays);
    TargetOfFilled(base, lower, relays, relay);
    var after := FileOne(filled, lower, relay)[c];
    var expected := FilledCountry(base, lower, relays + [relay], c);
    forall j | 0 <= j < |base[c].cities|
      ensures after.cities[j] == expected.cities[j]
    {
      FiledCitySnoc(base, lower, relays, relay, Slot(c, j));
    }
    assert after.cities == expected.cities;
  }

  /** Filing one relay at a time builds up `Filled`. */
  lemma FileOneFills(base: Countries, lower: Lower, relays: seq<ServerRelay>, relay: ServerRelay)
    ensures FileOne(Filled(base, lower, relays), lower, relay) == Filled(base, lower, relays + [relay])
  {
    forall c | c in base
      ensures FileOne(Filled(base, lower, relays), lower, relay)[c] == Filled(base, lower, relays + [relay])[c]
    {
      FiledCountrySnoc(base, lower, relays, relay, c);
    }
  }

  // ----- conservation

  /** The positions of the relays that belong in a slot. */
  function FiledFrom(base: Countries, lower: Lower, relays: seq<ServerRelay>, slot: Slot): seq<nat> {
    if relays == [] then []
    else
      FiledFrom(base, lower, Front(relays), slot) +
      if Target(base, lower, Last(relays)) == Some(slot) then [|relays| - 1] else []
  }

  predicate AscendingBelow(positions: seq<nat>, bound: nat) {
    && (forall k | 0 <= k < |positions| :: positions[k] < bound)
    && (forall k, l | 0 <= k < l < |positions| :: positions[k] < positions[l])
  }

  lemma {:induction false} FiledFromAscends(base: Countries, lower: Lower, relays: seq<ServerRelay>, slot: Slot)
    ensures AscendingBelow(FiledFrom(base, lower, relays, slot), |relays|)
  {
    if relays != [] {
      FiledFromAscends(base, lower, Front(relays), slot);
    }
  }

  /** The positions are all those with the slot as target. */
  lemma {:induction false} FiledFromTargets(base: Countries, lower: Lower, relays: seq<ServerRelay>, slot: Slot, i: nat)
    requires i < |relays|
    ensures i in FiledFrom(base, lower, relays, slot) <==> Target(base, lower, relays[i]) == Some(slot)
  {
    if i < |relays| - 1 {
      FiledFromTargets(base, lower, Front(relays), slot, i);
    } else {
      FiledFromAscends(base, lower, Front(relays), slot);
    }
  }

  /** A slot holds the conversions of the relays at these positions. */
  lemma {:induction false} FiledIsConverted(base: Countries, lower: Lower, relays: seq<ServerRelay>, slot: Slot)
    requires slot.country in base && slot.index < |base[slot.country].cities|
    ensures var from := FiledFrom(base, lower, relays, slot);
            var filed := Filed(base, lower, relays, slot);
            var location := LocationIn(base[slot.country], base[slot.country].cities[slot.index]);
            && |filed| == |from|
            && forall k | 0 <= k < |from| ::
                 from[k] < |relays| && filed[k] == IntoRelay(lower, relays[from[k]], location)
  {
    if relays != [] {
      var before := Front(relays);
      FiledIsConverted(base, lower, before, slot);
      assert forall i | 0 <= i < |before| :: before[i] == relays[i];
    }
  }

  lemma {:induction false} RegionsHaveNoRelays(lower: Lower, locations: seq<(string, Location)>, country: string)
    ensures forall city | city in CitiesOf(lower, locations, country) :: city.relays == []
  {
    if locations != [] {
      RegionsHaveNoRelays(lower, Front(locations), country);
    }
  }

  /** A relay belongs to the first city with its city code, in the country with its country code. */
  lemma TargetIsFirstMatch(countries: Countries, lower: Lower, relay: ServerRelay, slot: Slot)
    requires slot.country in countries && slot.index < |countries[slot.country].cities|
    ensures var cities := countries[slot.country].cities;
            Target(countries, lower, relay) == Some(slot) <==>
            && SplitLocationCode(lower(relay.location)) == Some(Key(slot.country, cities[slot.index].code))
            && forall j | 0 <= j < slot.index :: cities[j].code != cities[slot.index].code
  {
    var found := CityIndex(countries[slot.country].cities, countries[slot.country].cities[slot.index].code);
    assert found.Some? && found.value <= slot.index;
  }

  /** A city's relays are the conversions of the inputs at these positions. */
  ghost predicate ListsInputs(lower: Lower, country: Country, j: nat, relays: seq<ServerRelay>, from: seq<nat>)
    requires j < |country.cities|
  {
    && AscendingBelow(from, |relays|)
    && |country.cities[j].relays| == |from|
    && forall k | 0 <= k < |from| ::
         country.cities[j].relays[k] == IntoRelay(lower, relays[from[k]], LocationIn(country, country.cities[j]))
  }

  /** The location code names this city, lowercased, and no earlier one with the same code exists. */
  ghost predicate NamesCity(lower: Lower, code: string, country: Country, j: nat)
    requires j < |country.cities|
  {
    && LocationKey(lower, code) == Some(Key(country.code, country.cities[j].code))
    && forall i | 0 <= i < j :: country.cities[i].code != country.cities[j].code
  }

  lemma FilledListsInputs(lower: Lower, locations: seq<(string, Location)>, relays: seq<ServerRelay>, slot: Slot)
    requires slot.country in Regions(lower, locations)
    requires slot.index < |Regions(lower, locations)[slot.country].cities|
    ensures var base := Regions(lower, locations);
            ListsInputs(lower, Filled(base, lower, relays)[slot.country], slot.index, relays,
                        FiledFrom(base, lower, relays, slot))
  {
    var base := Regions(lower, locations);
    RegionsHaveNoRelays(lower, locations, slot.country);
    assert Filled(base, lower, relays)[slot.country].cities[slot.index] == WithFiled(base, lower, relays, slot);
    FiledIsConverted(base, lower, relays, slot);
    FiledFromAscends(base, lower, relays, slot);
  }

  /** Filing relays changes no codes. */
  lemma NamesFilledCity(base: Countries, lower: Lower, relays: seq<ServerRelay>, slot: Slot, code: string)
    requires slot.country in base && slot.index < |base[slot.country].cities|
    ensures NamesCity(lower, code, Filled(base, lower, relays)[slot.country], slot.index) <==>
            NamesCity(lower, code, base[slot.country], slot.index)
  {
    var filled := Filled(base, lower, relays)[slot.country].cities;
    assert forall j | 0 <= j <= slot.index :: filled[j].code == base[slot.country].cities[j].code;
  }

  lemma FiledFromNamesCity(base: Countries, lower: Lower, relays: seq<ServerRelay>, slot: Slot, i: nat)
    requires slot.country in base && slot.index < |base[slot.country].cities|
    requires base[slot.country].code == slot.country && i < |relays|
    requires SplitLocationCode(lower(relays[i].location)) == LocationKey(lower, relays[i].location)
    ensures i in FiledFrom(base, lower, relays, slot) <==>
            NamesCity(lower, relays[i].location, Filled(base, lower, relays)[slot.country], slot.index)
  {
    FiledFromTargets(base, lower, relays, slot, i);
    TargetIsFirstMatch(base, lower, relays[i], slot);
    NamesFilledCity(base, lower, relays, slot, relays[i].location);
  }

  /**
   Every relay is listed exactly where it belongs. The relays of a city in the list are the
   conversions of the inputs at `from`, each saying that it is in the city it is listed under. These
   positions are ascending, so that no relay is listed twice and the input order is kept, and they
   are exactly those whose location code names this city.
   */
  lemma {:induction false} ListHoldsEachRelayOnce(lower: Lower, locations: seq<(string, Location)>, relays: seq<ServerRelay>, slot: Slot)
    requires RespectsDashes(lower)
    requires slot.country in Regions(lower, locations)
    requires slot.index < |Regions(lower, locations)[slot.country].cities|
    ensures var base := Regions(lower, locations);
            var country := Filled(base, lower, relays)[slot.country];
            var from := FiledFrom(base, lower, relays, slot);
            && country.code == slot.country
            && ListsInputs(lower, country, slot.index, relays, from)
            && forall i | 0 <= i < |relays| :: i in from <==> NamesCity(lower, relays[i].location, country, slot.index)
  {
    FilledListsInputs(lower, locations, relays, slot);
    forall i | 0 <= i < |relays|
      ensures i in FiledFrom(Regions(lower, locations), lower, relays, slot) <==>
              NamesCity(lower, relays[i].location, Filled(Regions(lower, locations), lower, relays)[slot.country], slot.index)
    {
      LowerCommutesWithSplit(lower, relays[i].location);
      FiledFromNamesCity(Regions(lower, locations), lower, relays, slot, i);
    }
  }

  /** Every city of a region comes from a location. */
  lemma {:induction false} CityHasLocation(lower: Lower, locations: seq<(string, Location)>, country: string, j: nat)
    returns (i: nat)
    requires j < |CitiesOf(lower, locations, country)|
    ensures i < |locations|
    ensures var city, location := CitiesOf(lower, locations, country)[j], locations[i].1;
            && LocationKey(lower, locations[i].0) == Some(Key(country, city.code))
            && city.name == location.city && city.latitude == location.latitude && city.longitude == location.longitude
  {
    var before := Front(locations);
    if j < |CitiesOf(lower, before, country)| {
      i := CityHasLocation(lower, before, country, j);
      assert before[i] == locations[i];
    } else {
      i := |before|;
    }
  }

  /** A country of the list is named by the first location with its code. */
  lemma {:induction false} CountryNamedByFirst(lower: Lower, locations: seq<(string, Location)>, c: string) returns (i: nat)
    requires c in CountryCodes(lower, locations)
    ensures i < |locations| && Names(lower, locations[i], c) && NameOf(lower, locations, c) == locations[i].1.country
    ensures forall j | 0 <= j < i :: !Names(lower, locations[j], c)
  {
    CountryCodesHead(lower, locations);
    if Names(lower, locations[0], c) {
      i := 0;
    } else {
      var j := CountryNamedByFirst(lower, locations[1..], c);
      i := j + 1;
      assert forall k | 0 < k < |locations| :: locations[k] == locations[1..][k - 1];
    }
  }

  /** Every location with a proper code has a city. */
  lemma {:induction false} LocationHasCity(lower: Lower, locations: seq<(string, Location)>, i: nat) returns (j: nat)
    requires i < |locations| && LocationKey(lower, locations[i].0).Some?
    ensures var key := LocationKey(lower, locations[i].0).value;
            var cities := CitiesOf(lower, locations, key.country);
            j < |cities| && cities[j].code == key.city
  {
    var before := Front(locations);
    var country := LocationKey(lower, locations[i].0).value.country;
    if i < |before| {
      assert before[i] == locations[i];
      j := LocationHasCity(lower, before, i);
      assert CitiesOf(lower, before, country) <= CitiesOf(lower, locations, country);
    } else {
      j := |CitiesOf(lower, before, country)|;
    }
  }

  /** A place in the list. */
  predicate IsSlot(countries: Countries, slot: Slot) {
    slot.country in countries && slot.index < |countries[slot.country].cities|
  }

  /** Some location has, lowercased, the country and city code of this one. */
  ghost predicate HasLocation(lower: Lower, locations: seq<(string, Location)>, code: string) {
    var key := LocationKey(lower, code);
    key.Some? && exists i | 0 <= i < |locations| :: LocationKey(lower, locations[i].0) == key
  }

  lemma TargetIffLocation(lower: Lower, locations: seq<(string, Location)>, relay: ServerRelay)
    requires SplitLocationCode(lower(relay.location)) == LocationKey(lower, relay.location)
    ensures Target(Regions(lower, locations), lower, relay).Some? <==> HasLocation(lower, locations, relay.location)
  {
    var key := LocationKey(lower, relay.location);
    var target := Target(Regions(lower, locations), lower, relay);
    if target.Some? {
      var i := CityHasLocation(lower, locations, target.value.country, target.value.index);
    }
    if key.Some? {
      if i :| 0 <= i < |locations| && LocationKey(lower, locations[i].0) == key {
        var j := LocationHasCity(lower, locations, i);
        assert key.value.country in CountryCodes(lower, locations);
      }
    }
  }

  /**
   Exactly once: an input is listed in some place if and only if a location has its country and city
   code, and no input is listed in two places.
   */
  lemma {:induction false} RelayIsListedIff(lower: Lower, locations: seq<(string, Location)>, relays: seq<ServerRelay>, i: nat)
    requires RespectsDashes(lower) && i < |relays|
    ensures var base := Regions(lower, locations);
            && ((exists slot | IsSlot(base, slot) :: i in FiledFrom(base, lower, relays, slot)) <==>
                HasLocation(lower, locations, relays[i].location))
            && (forall a, b | i in FiledFrom(base, lower, relays, a) && i in FiledFrom(base, lower, relays, b) :: a == b)
  {
    var base := Regions(lower, locations);
    LowerCommutesWithSplit(lower, relays[i].location);
    TargetIffLocation(lower, locations, relays[i]);
    forall slot: Slot
      ensures i in FiledFrom(base, lower, relays, slot) <==> Target(base, lower, relays[i]) == Some(slot)
    {
      FiledFromTargets(base, lower, relays, slot, i);
    }
    if Target(base, lower, relays[i]).Some? {
      var slot := Target(base, lower, relays[i]).value;
      assert IsSlot(base, slot) && i in FiledFrom(base, lower, relays, slot);
    }
  }

  /** Which list a relay came from. */
  predicate SameKind(kind: Kind, endpoint: EndpointData) {
    (kind.OpenVpn? <==> endpoint.OpenVpnData?) && (kind.Bridge? <==> endpoint.BridgeData?)
  }

  /**
   What a listed relay says of itself: everything the server said, with a lowercased hostname, and
   the names, codes and coordinates of the country and city it is listed under. A WireGuard relay has
   DAITA if the old or the new flag says so, and each of its extra addresses.
   */
  lemma ListedRelayKeepsData(lower: Lower, relays: seq<ServerRelay>, country: Country, j: nat, from: seq<nat>, k: nat)
    requires j < |country.cities| && ListsInputs(lower, country, j, relays, from) && k < |from|
    ensures var input, r := relays[from[k]], country.cities[j].relays[k];
            && r.hostname == lower(input.hostname) && r.provider == input.provider && r.weight == input.weight
            && r.active == input.active && r.owned == input.owned && r.includeInCountry == input.includeInCountry
            && r.ipv4 == input.ipv4 && r.ipv6 == input.ipv6 && SameKind(input.kind, r.endpoint)
            && r.location.country == country.name && r.location.countryCode == country.code
            && r.location.city == country.cities[j].name && r.location.cityCode == country.cities[j].code
            && r.location.latitude == country.cities[j].latitude && r.location.longitude == country.cities[j].longitude
    ensures var input, r := relays[from[k]], country.cities[j].relays[k];
            input.kind.Wireguard? ==>
              && r.endpoint.WireguardData? && r.endpoint.publicKey == input.kind.publicKey
              && (r.endpoint.daita <==> input.kind.daita || input.kind.features.daita)
              && r.endpoint.quic == input.kind.features.quic && r.endpoint.lwo == input.kind.features.lwo
              && (forall a :: a in r.endpoint.extraAddresses <==> a in input.kind.extraAddresses)
  {
  }

  // ----- the conversion in place

  method BuildRegions(lower: Lower, locations: seq<(string, Location)>) returns (countries: Countries)
    ensures countries == Regions(lower, locations)
  {
    countries := map[];
    for i := 0 to |locations|
      invariant countries == Regions(lower, locations[..i])
    {
      var (code, location) := locations[i];
      assert locations[..i + 1] == locations[..i] + [locations[i]];
      RegionsSnoc(lower, locations[..i], locations[i]);
      match SplitLocationCode(code) {
        case Some(Key(countryPart, cityPart)) =>
          var c := lower(countryPart);
          var country := if c in countries then countries[c] else Country(location.country, c, []);
          countries := countries[c := country.(cities := country.cities + [LocationToCity(location, lower(cityPart))])];
        case None =>
      }
    }
    assert locations[..|locations|] == locations;
  }

  /** The regions after one more location, as the source changes them in place. */
  function AddLocation(countries: Countries, lower: Lower, entry: (string, Location)): Countries {
    match LocationKey(lower, entry.0)
    case None => countries
    case Some(Key(c, city)) =>
      var country := if c in countries then countries[c] else Country(entry.1.country, c, []);
      countries[c := country.(cities := country.cities + [LocationToCity(entry.1, city)])]
  }

  lemma RegionSnoc(lower: Lower, locations: seq<(string, Location)>, entry: (string, Location), c: string)
    requires c in CountryCodes(lower, locations + [entry])
    ensures c in AddLocation(Regions(lower, locations), lower, entry)
    ensures AddLocation(Regions(lower, locations), lower, entry)[c] == Regions(lower, locations + [entry])[c]
  {
    CountryCodesSnoc(lower, locations, entry);
    NameOfSnoc(lower, locations, entry, c);
    assert Front(locations + [entry]) == locations;
    if c !in CountryCodes(lower, locations) {
      NoCities(lower, locations, c);
    }
  }

  /** Adding one location at a time builds up `Regions`. */
  lemma RegionsSnoc(lower: Lower, locations: seq<(string, Location)>, entry: (string, Location))
    ensures AddLocation(Regions(lower, locations), lower, entry) == Regions(lower, locations + [entry])
  {
    CountryCodesSnoc(lower, locations, entry);
    forall c | c in CountryCodes(lower, locations + [entry])
      ensures c in AddLocation(Regions(lower, locations), lower, entry)
      ensures AddLocation(Regions(lower, locations), lower, entry)[c] == Regions(lower, locations + [entry])[c]
    {
      RegionSnoc(lower, locations, entry, c);
    }
    assert AddLocation(Regions(lower, locations), lower, entry).Keys == Regions(lower, locations + [entry]).Keys;
  }

  lemma {:induction false} NoCities(lower: Lower, locations: seq<(string, Location)>, country: string)
    requires country !in CountryCodes(lower, locations)
    ensures CitiesOf(lower, locations, country) == []
  {
    if locations != [] {
      assert locations == Front(locations) + [Last(locations)];
      CountryCodesSnoc(lower, Front(locations), Last(locations));
      NoCities(lower, Front(locations), country);
    }
  }

  /** The loop of each `extract_relays`. */
  method ExtractRelays(lower: Lower, relays: seq<ServerRelay>, base: Countries) returns (countries: Countries)
    ensures countries == Filled(base, lower, relays)
  {
    countries := base;
    FilledNone(base, lower);
    for i := 0 to |relays|
      invariant countries == Filled(base, lower, relays[..i])
    {
      FileOneFills(base, lower, relays[..i], relays[i]);
      assert relays[..i + 1] == relays[..i] + [relays[i]];
      var target := Target(countries, lower, relays[i]);
      if target.Some? {
        var country := countries[target.value.country];
        var city := country.cities[target.value.index];
        var relay := IntoRelay(lower, relays[i], LocationIn(country, city));
        city := city.(relays := city.relays + [relay]);
        country := country.(cities := country.cities[target.value.index := city]);
        countries := countries[target.value.country := country];
      }
    }
    assert relays[..|relays|] == relays;
  }

  lemma {:induction false} FilledAppend(base: Countries, lower: Lower, a: seq<ServerRelay>, b: seq<ServerRelay>)
    ensures Filled(Filled(base, lower, a), lower, b) == Filled(base, lower, a + b)
  {
    if b == [] {
      assert a + b == a;
      FilledNone(Filled(base, lower, a), lower);
    } else {
      FilledAppend(base, lower, a, Front(b));
      FileOneFills(base, lower, a + Front(b), Last(b));
      FileOneFills(Filled(base, lower, a), lower, Front(b), Last(b));
      assert Front(b) + [Last(b)] == b && a + Front(b) + [Last(b)] == a + b;
    }
  }

  /** `into_relay_list`: the regions of the locations, filled with the OpenVPN, WireGuard and bridge relays in this order. */
  method IntoRelayList(lower: Lower, locations: seq<(string, Location)>, openvpn: seq<ServerRelay>,
                       wireguard: seq<ServerRelay>, bridge: seq<ServerRelay>) returns (countries: Countries)
    ensures countries == Filled(Regions(lower, locations), lower, openvpn + wireguard + bridge)
  {
    countries := BuildRegions(lower, locations);
    ghost var base := countries;
    countries := ExtractRelays(lower, openvpn, countries);
    countries := ExtractRelays(lower, wireguard, countries);
    countries := ExtractRelays(lower, bridge, countries);
    FilledAppend(base, lower, openvpn, wireguard);
    FilledAppend(base, lower, openvpn + wireguard, bridge);
  }
}
