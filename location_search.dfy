/** The location search box: when the address autocomplete picks a place, the
    address components are scanned once, each field keeping the last component
    of its type (the country falling back to "United States"), the street
    address is the trimmed "number route", and the box shows that address.
    The autocomplete widget itself and its script loading are not modelled:
    the picked place is a parameter. */
module LocationSearch {
  import opened Wrappers
  import opened Text

  /** One entry of `place.address_components`. */
  datatype AddressComponent = AddressComponent(longName: string, shortName: string,
                                               types: seq<string>)

  /** `place.geometry.location`. */
  datatype LatLng = LatLng(lat: real, lng: real)

  /** The picked place; a place without `geometry` has `None`. */
  datatype Place = Place(addressComponents: seq<AddressComponent>, geometry: Option<LatLng>)

  /** The object handed to `onLocationSelect`. */
  datatype Location = Location(address: string, city: string, state: string, zipCode: string,
                               country: string, latitude: real, longitude: real)

  /** The six variables the scan fills in. */
  datatype Parts = Parts(streetNumber: string, route: string, city: string, state: string,
                         zipCode: string, country: string)

  const DefaultCountry := "United States"

  /** `types.includes(t)`. */
  function HasType(t: string): AddressComponent -> bool
  {
    (c: AddressComponent) => t in c.types
  }

  /** A component that names the city: `locality` or `postal_town`. */
  function IsCity(): AddressComponent -> bool
  {
    (c: AddressComponent) => "locality" in c.types || "postal_town" in c.types
  }

  function LongName(): AddressComponent -> string
  {
    (c: AddressComponent) => c.longName
  }

  function ShortName(): AddressComponent -> string
  {
    (c: AddressComponent) => c.shortName
  }

  /** The value read from the last component that `matches`, or `initial`
      when there is none. */
  function LastMatch(cs: seq<AddressComponent>, matches: AddressComponent -> bool,
                     read: AddressComponent -> string, initial: string): string
  {
    if cs == [] then initial
    else if matches(cs[|cs| - 1]) then read(cs[|cs| - 1])
    else LastMatch(cs[..|cs| - 1], matches, read, initial)
  }

  /** `LastMatch` means what its name says: with no matching component the
      value is the initial one, and otherwise it is read from a matching
      component after which no other component matches. */
  lemma {:induction false} LastMatchIsLast(cs: seq<AddressComponent>,
                                           matches: AddressComponent -> bool,
                                           read: AddressComponent -> string, initial: string)
    ensures (forall i :: 0 <= i < |cs| ==> !matches(cs[i])) ==>
              LastMatch(cs, matches, read, initial) == initial
    ensures (exists i :: 0 <= i < |cs| && matches(cs[i])) ==>
              exists i :: && 0 <= i < |cs| && matches(cs[i])
                          && LastMatch(cs, matches, read, initial) == read(cs[i])
                          && forall j :: i < j < |cs| ==> !matches(cs[j])
  {
    if cs != [] {
      var n := |cs| - 1;
      var init := cs[..n];
      LastMatchIsLast(init, matches, read, initial);
      if !matches(cs[n]) {
        assert forall i :: 0 <= i < n ==> init[i] == cs[i];
        if exists i :: 0 <= i < |cs| && matches(cs[i]) {
          var k :| 0 <= k < |cs| && matches(cs[k]);
          assert init[k] == cs[k];
        }
      }
    }
  }

  /** What the scan leaves in the six variables: street number, route, city,
      postal code and country from `long_name`, the state from `short_name`. */
  function Extracted(cs: seq<AddressComponent>): Parts
  {
    Parts(LastMatch(cs, HasType("street_number"), LongName(), ""),
          LastMatch(cs, HasType("route"), LongName(), ""),
          LastMatch(cs, IsCity(), LongName(), ""),
          LastMatch(cs, HasType("administrative_area_level_1"), ShortName(), ""),
          LastMatch(cs, HasType("postal_code"), LongName(), ""),
          LastMatch(cs, HasType("country"), LongName(), DefaultCountry))
  }

  /** `place.address_components.forEach(...)`: one pass, each `if` overwriting
      its variable, so the last matching component wins. */
  method ExtractAddress(cs: seq<AddressComponent>) returns (p: Parts)
    ensures p == Extracted(cs)
  {
    var streetNumber, route, city, state, zipCode := "", "", "", "", "";
    var country := DefaultCountry;
    for i := 0 to |cs|
      invariant Parts(streetNumber, route, city, state, zipCode, country) == Extracted(cs[..i])
    {
      assert cs[..i + 1][..i] == cs[..i];
      var types := cs[i].types;
      if "street_number" in types {
        streetNumber := cs[i].longName;
      }
      if "route" in types {
        route := cs[i].longName;
      }
      if "locality" in types || "postal_town" in types {
        city := cs[i].longName;
      }
      if "administrative_area_level_1" in types {
        state := cs[i].shortName;
      }
      if "postal_code" in types {
        zipCode := cs[i].longName;
      }
      if "country" in types {
        country := cs[i].longName;
      }
    }
    assert cs[..|cs|] == cs;
    p := Parts(streetNumber, route, city, state, zipCode, country);
  }

  /** The country is "United States" unless some component has type
      `country`, in which case it is the long name of the last one. */
  lemma CountryDefault(cs: seq<AddressComponent>)
    ensures (forall i :: 0 <= i < |cs| ==> "country" !in cs[i].types) ==>
              Extracted(cs).country == DefaultCountry
    ensures (exists i :: 0 <= i < |cs| && "country" in cs[i].types) ==>
              exists i :: && 0 <= i < |cs| && "country" in cs[i].types
                          && Extracted(cs).country == cs[i].longName
                          && forall j :: i < j < |cs| ==> "country" !in cs[j].types
  {
    LastMatchIsLast(cs, HasType("country"), LongName(), DefaultCountry);
  }

  /** The state is the short name of the last `administrative_area_level_1`
      component, and empty without one. */
  lemma StateIsShortName(cs: seq<AddressComponent>)
    ensures (forall i :: 0 <= i < |cs| ==> "administrative_area_level_1" !in cs[i].types) ==>
              Extracted(cs).state == ""
    ensures (exists i :: 0 <= i < |cs| && "administrative_area_level_1" in cs[i].types) ==>
              exists i :: && 0 <= i < |cs| && "administrative_area_level_1" in cs[i].types
                          && Extracted(cs).state == cs[i].shortName
                          && forall j :: i < j < |cs| ==> "administrative_area_level_1" !in cs[j].types
  {
    LastMatchIsLast(cs, HasType("administrative_area_level_1"), ShortName(), "");
  }

  /** The city is the long name of the last `locality` or `postal_town`
      component, whichever of the two comes later. */
  lemma CityFromLocalityOrPostalTown(cs: seq<AddressComponent>)
    ensures (forall i :: 0 <= i < |cs| ==>
               "locality" !in cs[i].types && "postal_town" !in cs[i].types) ==>
              Extracted(cs).city == ""
    ensures (exists i :: 0 <= i < |cs| && ("locality" in cs[i].types || "postal_town" in cs[i].types)) ==>
              exists i :: && 0 <= i < |cs| && ("locality" in cs[i].types || "postal_town" in cs[i].types)
                          && Extracted(cs).city == cs[i].longName
                          && forall j :: i < j < |cs| ==>
                               "locality" !in cs[j].types && "postal_town" !in cs[j].types
  {
    LastMatchIsLast(cs, IsCity(), LongName(), "");
  }

  /** `${streetNumber} ${route}`.trim(). */
  function StreetAddress(streetNumber: string, route: string): string
  {
    Trim(streetNumber + " " + route)
  }

  /** With trimmed parts the joining space appears only between two non-empty
      parts: a missing number or route leaves no stray space. */
  lemma StreetAddressParts(streetNumber: string, route: string)
    requires IsTrimmed(streetNumber) && IsTrimmed(route)
    ensures streetNumber != "" && route != "" ==>
              StreetAddress(streetNumber, route) == streetNumber + " " + route
    ensures streetNumber == "" ==> StreetAddress(streetNumber, route) == route
    ensures route == "" ==> StreetAddress(streetNumber, route) == streetNumber
  {
    var s := streetNumber + " " + route;
    if streetNumber != "" && route != "" {
      assert s[0] == streetNumber[0] && s[|s| - 1] == route[|route| - 1];
      TrimOfTrimmed(s);
    }
    if streetNumber == "" {
      assert s == " " + route;
      assert AllSpace(" ");
      TrimDropsLeading(" ", route);
      TrimOfTrimmed(route);
    }
    if route == "" {
      assert s == streetNumber + " ";
      assert AllSpace(" ");
      TrimDropsTrailing(streetNumber, " ");
      TrimOfTrimmed(streetNumber);
    }
  }

  /** The location a place with geometry produces. */
  function Selection(place: Place): (loc: Location)
    requires place.geometry.Some?
  {
    var p := Extracted(place.addressComponents);
    Location(StreetAddress(p.streetNumber, p.route), p.city, p.state, p.zipCode, p.country,
             place.geometry.value.lat, place.geometry.value.lng)
  }

  /** The reported address is always trimmed, whatever the components say. */
  lemma SelectionAddressTrimmed(place: Place)
    requires place.geometry.Some?
    ensures IsTrimmed(Selection(place).address)
  {
    var p := Extracted(place.addressComponents);
    TrimIsTrimmed(p.streetNumber + " " + p.route);
  }

  class LocationSearchBox {
    var searchValue: string

    /** `useState(defaultValue)`. */
    constructor (defaultValue: string)
      ensures searchValue == defaultValue
    {
      searchValue := defaultValue;
    }

    /** The input's `onChange`. */
    method HandleChange(value: string)
      modifies this`searchValue
      ensures searchValue == value
    {
      searchValue := value;
    }

    /** `handlePlaceSelect`: a place without geometry is ignored; otherwise the
        location is reported (`selected`) and the box shows its address. */
    method HandlePlaceSelect(place: Place) returns (selected: Option<Location>)
      modifies this`searchValue
      ensures place.geometry.None? ==> selected.None? && searchValue == old(searchValue)
      ensures place.geometry.Some? ==>
                && selected == Some(Selection(place))
                && searchValue == selected.value.address
    {
      if place.geometry.None? {
        return None;
      }
      var p := ExtractAddress(place.addressComponents);
      var address := Trim(p.streetNumber + " " + p.route);
      var location := place.geometry.value;
      selected := Some(Location(address, p.city, p.state, p.zipCode, p.country,
                                location.lat, location.lng));
      searchValue := address;
    }
  }
}
