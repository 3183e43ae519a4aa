/**
 * The venue listing page: a fixed catalogue, a filter made of six
 * conditions (search text, price range, capacity range, venue-type tags,
 * event-type tags, locations), membership toggles for the three tag lists,
 * a reset to the defaults, and the distinct list of cities offered as
 * location choices.
 */
module Venues {
  import opened Wrappers
  import opened VenueCard
  import Text
  import Lists
  import Sorting

  // ---------------------------------------------------------------- catalogue

  const Catalogue: seq<VenueProps> := [
    VenueProps("1", "Crystal Grand Ballroom",
      "Elegant ballroom with crystal chandeliers and marble floors, perfect for weddings and galas.",
      "Downtown, New York", 300, 1200, 49, Some(["Wedding", "Luxury"])),
    VenueProps("2", "Harbor View Terrace",
      "Stunning waterfront venue with panoramic views of the harbor, ideal for outdoor celebrations.",
      "Harbor District, San Francisco", 150, 950, 47, Some(["Outdoor", "Scenic"])),
    VenueProps("3", "Metropolitan Conference Center",
      "Modern conference center with state-of-the-art technology and flexible spaces for corporate events.",
      "Midtown, Chicago", 400, 1500, 46, Some(["Corporate", "Modern"])),
    VenueProps("4", "Garden Pavilion",
      "Charming garden pavilion surrounded by lush greenery and blooming flowers.",
      "Botanical Gardens, Miami", 120, 800, 48, Some(["Garden", "Intimate"])),
    VenueProps("5", "Mountain View Resort",
      "Breathtaking mountainside resort with spectacular views and luxury accommodations.",
      "Aspen, Colorado", 200, 1800, 49, Some(["Luxury", "Scenic"])),
    VenueProps("6", "Urban Workshop Space",
      "Industrial-chic venue with open floor plan and exposed brick, perfect for creative events.",
      "Arts District, Seattle", 80, 650, 45, Some(["Modern", "Creative"])),
    VenueProps("7", "Beachfront Paradise",
      "Gorgeous beachfront venue with white sand and azure waters as your backdrop.",
      "Malibu, California", 150, 1450, 48, Some(["Beach", "Outdoor"])),
    VenueProps("8", "Historic Opera House",
      "Magnificent 19th century opera house with ornate details and rich history.",
      "French Quarter, New Orleans", 350, 1350, 49, Some(["Historic", "Elegant"]))
  ]

  // ---------------------------------------------------------------- filter

  /** A two-handle slider value `[lo, hi]`. */
  datatype Range = Range(lo: int, hi: int)

  /** Everything the filter depends on. */
  datatype Filters = Filters(
    searchTerm: string,
    priceRange: Range,
    capacityRange: Range,
    venueTypes: seq<string>,
    eventTypes: seq<string>,
    locations: seq<string>)

  /** The filters as the page mounts and as `clearFilters` leaves them. */
  const DefaultFilters := Filters("", Range(500, 2000), Range(50, 350), [], [], [])

  /** The inclusive range test `x >= r[0] && x <= r[1]`. */
  predicate InRange(x: int, r: Range)
  {
    r.lo <= x && x <= r.hi
  }

  /** Case-insensitive search in the name, the description or the location; the empty term matches everything. */
  predicate SearchMatch(v: VenueProps, term: string)
  {
    var t := Text.ToLower(term);
    term == "" ||
    Text.Contains(Text.ToLower(v.name), t) ||
    Text.Contains(Text.ToLower(v.description), t) ||
    Text.Contains(Text.ToLower(v.location), t)
  }

  /** An empty selection imposes nothing; otherwise some tag of the venue must be selected. */
  predicate TagMatch(tags: Option<seq<string>>, selected: seq<string>)
  {
    selected == [] || (tags.Some? && exists t :: t in tags.value && t in selected)
  }

  /** An empty selection imposes nothing; otherwise some selected location must occur in the venue's location. */
  predicate LocationMatch(location: string, selected: seq<string>)
  {
    selected == [] || exists l :: l in selected && Text.Contains(location, l)
  }

  /** The six conditions of the filter, all of which a listed venue satisfies. */
  predicate Matches(v: VenueProps, f: Filters)
  {
    SearchMatch(v, f.searchTerm) &&
    InRange(v.price, f.priceRange) &&
    InRange(v.capacity, f.capacityRange) &&
    TagMatch(v.tags, f.venueTypes) &&
    TagMatch(v.tags, f.eventTypes) &&
    LocationMatch(v.location, f.locations)
  }

  /** `venues.filter(...)`: the matching venues, in catalogue order. */
  function FilterVenues(catalog: seq<VenueProps>, f: Filters): (r: seq<VenueProps>)
    ensures |r| <= |catalog|
  {
    if catalog == [] then []
    else FilterHead(catalog[0], f) + FilterVenues(catalog[1..], f)
  }

  /** The contribution of one venue to the listing. */
  function FilterHead(v: VenueProps, f: Filters): seq<VenueProps>
  {
    if Matches(v, f) then [v] else []
  }

  /** The listing holds exactly the catalogue's matching venues. */
  lemma {:induction false} FilterVenuesSpec(catalog: seq<VenueProps>, f: Filters)
    ensures forall v :: v in FilterVenues(catalog, f) <==> v in catalog && Matches(v, f)
  {
    if catalog != [] {
      FilterVenuesSpec(catalog[1..], f);
      assert FilterVenues(catalog, f) == FilterHead(catalog[0], f) + FilterVenues(catalog[1..], f);
      assert catalog == [catalog[0]] + catalog[1..];
    }
  }

  /**
   * The filter keeps catalogue order: filtering a concatenation is the
   * concatenation of the filtered parts, and a single venue is kept exactly
   * when it matches.
   */
  lemma {:induction false} FilterVenuesAppend(s: seq<VenueProps>, t: seq<VenueProps>, f: Filters)
    ensures FilterVenues(s + t, f) == FilterVenues(s, f) + FilterVenues(t, f)
  {
    if s == [] {
      assert s + t == t;
    } else {
      var h := FilterHead(s[0], f);
      assert (s + t)[0] == s[0];
      assert (s + t)[1..] == s[1..] + t;
      assert FilterVenues(s + t, f) == h + FilterVenues(s[1..] + t, f);
      FilterVenuesAppend(s[1..], t, f);
      Sorting.ConcatAssoc(h, FilterVenues(s[1..], f), FilterVenues(t, f));
      assert FilterVenues(s, f) == h + FilterVenues(s[1..], f);
    }
  }

  lemma FilterVenuesSingle(v: VenueProps, f: Filters)
    ensures FilterVenues([v], f) == if Matches(v, f) then [v] else []
  {
    assert [v][1..] == [];
  }

  /** With no search, no selections and ranges that hold every venue, nothing is filtered out. */
  lemma {:induction false} UnconstrainedKeepsAll(catalog: seq<VenueProps>, f: Filters)
    requires f.searchTerm == "" && f.venueTypes == [] && f.eventTypes == [] && f.locations == []
    requires forall v :: v in catalog ==> InRange(v.price, f.priceRange) && InRange(v.capacity, f.capacityRange)
    ensures FilterVenues(catalog, f) == catalog
  {
    if catalog != [] {
      assert catalog[0] in catalog;
      assert forall v :: v in catalog[1..] ==> v in catalog;
      UnconstrainedKeepsAll(catalog[1..], f);
      assert Matches(catalog[0], f);
      assert FilterVenues(catalog, f) == [catalog[0]] + catalog[1..];
    }
  }

  /** The search ignores the case of the term: terms equal up to case find the same venues. */
  lemma SearchIgnoresCase(v: VenueProps, a: string, b: string)
    requires Text.ToLower(a) == Text.ToLower(b)
    ensures SearchMatch(v, a) <==> SearchMatch(v, b)
  {
    assert |a| == |Text.ToLower(a)| == |b|;
  }

  /** Under the defaults only the price and capacity bounds, both inclusive, decide. */
  lemma DefaultFiltersSpec(v: VenueProps)
    ensures Matches(v, DefaultFilters) <==> 500 <= v.price <= 2000 && 50 <= v.capacity <= 350
  {
    assert SearchMatch(v, "");
  }

  /** Venue "8" (capacity 350) is kept under the defaults and venue "3" (capacity 400) is not. */
  lemma DefaultBoundsExamples()
    ensures Matches(Catalogue[7], DefaultFilters)
    ensures !Matches(Catalogue[2], DefaultFilters)
  {
    var v8, v3 := Catalogue[7], Catalogue[2];
    assert v8.price == 1350 && v8.capacity == 350;
    assert v3.capacity == 400;
    DefaultFiltersSpec(v8);
    DefaultFiltersSpec(v3);
  }

  /** Dropping the one venue that fails the filter from a catalogue where all others pass. */
  lemma AllButOne(c: seq<VenueProps>, k: nat, f: Filters)
    requires k < |c|
    requires !Matches(c[k], f)
    requires f.searchTerm == "" && f.venueTypes == [] && f.eventTypes == [] && f.locations == []
    requires forall i :: 0 <= i < |c| && i != k ==> InRange(c[i].price, f.priceRange) && InRange(c[i].capacity, f.capacityRange)
    ensures FilterVenues(c, f) == c[..k] + c[k + 1..]
  {
    var a, b := c[..k], c[k + 1..];
    KeepsSlice(c, 0, k, f);
    KeepsSlice(c, k + 1, |c|, f);
    assert a == c[0..k] && b == c[k + 1..|c|];
    var ak := a + [c[k]];
    FilterVenuesAppend(ak, b, f);
    FilterVenuesAppend(a, [c[k]], f);
    FilterVenuesSingle(c[k], f);
    assert FilterVenues(ak, f) == a;
    Lists.SplitAround(c, k);
  }

  /** A stretch of venues all within the ranges of an otherwise empty filter is kept whole. */
  lemma KeepsSlice(c: seq<VenueProps>, lo: nat, hi: nat, f: Filters)
    requires lo <= hi <= |c|
    requires f.searchTerm == "" && f.venueTypes == [] && f.eventTypes == [] && f.locations == []
    requires forall i :: lo <= i < hi ==> InRange(c[i].price, f.priceRange) && InRange(c[i].capacity, f.capacityRange)
    ensures FilterVenues(c[lo..hi], f) == c[lo..hi]
  {
    var d := c[lo..hi];
    forall v | v in d ensures InRange(v.price, f.priceRange) && InRange(v.capacity, f.capacityRange) {
      var i :| 0 <= i < |d| && d[i] == v;
      assert c[lo + i] == v;
    }
    UnconstrainedKeepsAll(d, f);
  }

  /** The price and capacity of every catalogue venue other than "3" lie in the default bounds. */
  lemma CatalogueInDefaultBounds(i: nat)
    requires i < |Catalogue| && i != 2
    ensures InRange(Catalogue[i].price, DefaultFilters.priceRange)
    ensures InRange(Catalogue[i].capacity, DefaultFilters.capacityRange)
  {
  }

  /** Under the defaults the page lists every venue except "3", in catalogue order. */
  lemma DefaultListing()
    ensures FilterVenues(Catalogue, DefaultFilters) == Catalogue[..2] + Catalogue[3..]
  {
    forall i | 0 <= i < |Catalogue| && i != 2
      ensures InRange(Catalogue[i].price, DefaultFilters.priceRange)
      ensures InRange(Catalogue[i].capacity, DefaultFilters.capacityRange)
    {
      CatalogueInDefaultBounds(i);
    }
    DefaultBoundsExamples();
    AllButOne(Catalogue, 2, DefaultFilters);
  }

  /**
   * The search is a substring test after lowering both sides: a venue is
   * found when the lowered term occurs at some position of its lowered name,
   * description or location.
   */
  lemma SearchSpec(v: VenueProps, term: string)
    ensures SearchMatch(v, term) <==>
      term == "" ||
      (exists i :: Text.OccursAt(Text.ToLower(v.name), Text.ToLower(term), i)) ||
      (exists i :: Text.OccursAt(Text.ToLower(v.description), Text.ToLower(term), i)) ||
      (exists i :: Text.OccursAt(Text.ToLower(v.location), Text.ToLower(term), i))
  {
    var t := Text.ToLower(term);
    var n, d, l := Text.ToLower(v.name), Text.ToLower(v.description), Text.ToLower(v.location);
    Text.ContainsIff(n, t);
    Text.ContainsIff(d, t);
    Text.ContainsIff(l, t);
    assert SearchMatch(v, term) == (term == "" || Text.Contains(n, t) || Text.Contains(d, t) || Text.Contains(l, t));
    assert Text.Contains(n, t) <==> exists i :: Text.OccursAt(Text.ToLower(v.name), Text.ToLower(term), i);
    assert Text.Contains(d, t) <==> exists i :: Text.OccursAt(Text.ToLower(v.description), Text.ToLower(term), i);
    assert Text.Contains(l, t) <==> exists i :: Text.OccursAt(Text.ToLower(v.location), Text.ToLower(term), i);
  }

  // ---------------------------------------------------------------- locations

  /** The city of a location: the text after its last ", ". */
  function City(location: string): string
  {
    Text.LastPart(location, ", ")
  }

  function Cities(catalog: seq<VenueProps>): (r: seq<string>)
    ensures |r| == |catalog|
    ensures forall i :: 0 <= i < |catalog| ==> r[i] == City(catalog[i].location)
  {
    if catalog == [] then [] else [City(catalog[0].location)] + Cities(catalog[1..])
  }

  /** `locations`: the distinct cities of the catalogue, in order of first appearance. */
  function Locations(catalog: seq<VenueProps>): seq<string>
  {
    Lists.Distinct(Cities(catalog))
  }

  /**
   * The location choices are duplicate-free, are exactly the cities of the
   * catalogue's venues, and none of them holds a ", ".
   */
  lemma LocationsSpec(catalog: seq<VenueProps>)
    ensures Lists.NoDup(Locations(catalog))
    ensures forall c :: c in Locations(catalog) <==> exists i :: 0 <= i < |catalog| && c == City(catalog[i].location)
    ensures forall c :: c in Locations(catalog) ==> !Text.Contains(c, ", ")
  {
    var cs := Cities(catalog);
    Lists.DistinctSpec(cs);
    forall c | c in Locations(catalog) ensures !Text.Contains(c, ", ") {
      var i :| 0 <= i < |cs| && cs[i] == c;
      Text.LastPartSpec(catalog[i].location, ", ");
    }
  }

  /** The city of "area, city" is the city when the city has no comma. */
  lemma CityAfterLastComma(area: string, city: string)
    requires ',' !in city
    ensures City(area + ", " + city) == city
  {
    var s := area + ", " + city;
    var n := |area|;
    assert s[n..n + 2] == ", ";
    assert Text.OccursAt(s, ", ", n);
    Text.LastPartSpec(s, ", ");
    var k := Text.LastStart(s, ", ", 0);
    if k <= n {
      Text.LastStartNoSep(s, ", ", 0, n);
    }
    Text.LastStartAfterSep(s, ", ", 0);
    assert Text.OccursAt(s, ", ", k - 2);
    assert s[k - 2..k] == ", ";
    assert s[k - 2] == s[k - 2..k][0] == ',';
    assert s[k - 1] == s[k - 2..k][1] == ' ';
    assert s[n] == ',';
    assert k - 2 == n;
    assert s[n + 2..] == city;
  }

  /** "Downtown, New York" lies in "New York". */
  lemma CityExample()
    ensures City("Downtown, New York") == "New York"
  {
    assert "Downtown, New York" == "Downtown" + ", " + "New York";
    CityAfterLastComma("Downtown", "New York");
  }

  // ---------------------------------------------------------------- page state

  /** The listing page's filter state and the list it shows. */
  class FilterState {
    var searchTerm: string
    var priceRange: Range
    var capacityRange: Range
    var selectedVenueTypes: seq<string>
    var selectedEventTypes: seq<string>
    var selectedLocations: seq<string>
    var filteredVenues: seq<VenueProps>
    /** The venues the page filters: the fixed catalogue. */
    const catalog: seq<VenueProps>

    /** The filter the current state describes. */
    function Current(): Filters
      reads this
    {
      Filters(searchTerm, priceRange, capacityRange, selectedVenueTypes, selectedEventTypes, selectedLocations)
    }

    /** The page as mounted: default filters, and every venue listed until the filter effect runs. */
    constructor ()
      ensures Current() == DefaultFilters
      ensures catalog == Catalogue && filteredVenues == Catalogue
    {
      catalog := Catalogue;
      searchTerm := "";
      priceRange := Range(500, 2000);
      capacityRange := Range(50, 350);
      selectedVenueTypes := [];
      selectedEventTypes := [];
      selectedLocations := [];
      filteredVenues := Catalogue;
    }

    /** The effect that recomputes the listed venues from the current filter. */
    method ApplyFilters()
      modifies this
      ensures filteredVenues == FilterVenues(catalog, old(Current()))
      ensures Current() == old(Current())
    {
      filteredVenues := FilterVenues(catalog, Current());
    }

    /** `toggleVenueType`: flips one type in the venue-type selection only. */
    method ToggleVenueType(t: string)
      modifies this
      ensures selectedVenueTypes == Lists.Toggle(old(selectedVenueTypes), t)
      ensures Current() == old(Current()).(venueTypes := selectedVenueTypes)
      ensures filteredVenues == old(filteredVenues)
    {
      selectedVenueTypes := Lists.Toggle(selectedVenueTypes, t);
    }

    /** `toggleEventType`: flips one type in the event-type selection only. */
    method ToggleEventType(t: string)
      modifies this
      ensures selectedEventTypes == Lists.Toggle(old(selectedEventTypes), t)
      ensures Current() == old(Current()).(eventTypes := selectedEventTypes)
      ensures filteredVenues == old(filteredVenues)
    {
      selectedEventTypes := Lists.Toggle(selectedEventTypes, t);
    }

    /** `toggleLocation`: flips one city in the location selection only. */
    method ToggleLocation(l: string)
      modifies this
      ensures selectedLocations == Lists.Toggle(old(selectedLocations), l)
      ensures Current() == old(Current()).(locations := selectedLocations)
      ensures filteredVenues == old(filteredVenues)
    {
      selectedLocations := Lists.Toggle(selectedLocations, l);
    }

    /** `clearFilters`: every filter back to its default. */
    method ClearFilters()
      modifies this
      ensures Current() == DefaultFilters
      ensures filteredVenues == old(filteredVenues)
    {
      searchTerm := "";
      priceRange := Range(500, 2000);
      capacityRange := Range(50, 350);
      selectedVenueTypes := [];
      selectedEventTypes := [];
      selectedLocations := [];
    }
  }

  /** Once the filter effect has run on mount, the page lists every venue except "3". */
  method MountWalkthrough()
  {
    var s := new FilterState();
    s.ApplyFilters();
    DefaultListing();
    assert s.filteredVenues == Catalogue[..2] + Catalogue[3..];
  }

  /** Toggling a venue type on and off again leaves the filter as it was. */
  method ToggleTwiceWalkthrough(s: FilterState, t: string)
    requires t !in s.selectedVenueTypes
    modifies s
  {
    var before := s.Current();
    s.ToggleVenueType(t);
    assert t in s.selectedVenueTypes;
    s.ToggleVenueType(t);
    Lists.ToggleTwiceAbsent(before.venueTypes, t);
    assert s.Current() == before;
  }
}
