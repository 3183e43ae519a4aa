/**
 * The home page's two venue lists: the featured venues, and the three
 * best-rated venues, which the page obtains by sorting its local array in
 * place by descending rating and keeping the first three.
 */
module Index {
  import Sorting

  /** A home-page venue; `rating` is in tenths of a star. */
  datatype HomeVenue = HomeVenue(
    id: string,
    name: string,
    location: string,
    capacity: nat,
    description: string,
    pricePerDay: nat,
    rating: nat,
    reviews: nat,
    amenities: seq<string>,
    featured: bool)

  const HomeVenues: seq<HomeVenue> := [
    HomeVenue("1", "Grand Ballroom", "New York, NY", 500, "Elegant ballroom with stunning city views.",
      5000, 45, 120, ["WiFi", "Projector", "Sound System"], true),
    HomeVenue("2", "Oceanfront Terrace", "Miami, FL", 300, "Beautiful terrace overlooking the ocean.",
      4000, 48, 150, ["Outdoor Seating", "Bar", "Dance Floor"], true),
    HomeVenue("3", "Rustic Barn", "Austin, TX", 200, "Charming barn with a rustic atmosphere.",
      3000, 42, 90, ["Fireplace", "Catering Kitchen", "Parking"], false),
    HomeVenue("4", "Rooftop Garden", "Los Angeles, CA", 150, "Lush garden with panoramic city views.",
      4500, 49, 180, ["Green Space", "City Views", "Cocktail Service"], false),
    HomeVenue("5", "Historic Mansion", "Boston, MA", 250, "Elegant mansion with historic charm.",
      3800, 46, 110, ["Valet Parking", "Grand Staircase", "Library"], false),
    HomeVenue("6", "Modern Loft", "Chicago, IL", 100, "Stylish loft with a contemporary design.",
      3200, 47, 130, ["Exposed Brick", "Natural Light", "Sound System"], false)
  ]

  /** How many top-rated venues the page shows. */
  const TopCount: nat := 3

  // ---------------------------------------------------------------- featured

  /** `venues.filter(venue => venue.featured)`. */
  function FeaturedOf(venues: seq<HomeVenue>): (r: seq<HomeVenue>)
    ensures |r| <= |venues|
    ensures forall v :: v in r ==> v in venues && v.featured
    ensures forall v :: v in venues && v.featured ==> v in r
  {
    if venues == [] then []
    else (if venues[0].featured then [venues[0]] else []) + FeaturedOf(venues[1..])
  }

  /** The filter works piece by piece, so the featured venues keep their original order. */
  lemma {:induction false} FeaturedOfAppend(a: seq<HomeVenue>, b: seq<HomeVenue>)
    ensures FeaturedOf(a + b) == FeaturedOf(a) + FeaturedOf(b)
  {
    if a == [] {
      assert a + b == b;
    } else {
      var h := if a[0].featured then [a[0]] else [];
      assert (a + b)[0] == a[0];
      assert (a + b)[1..] == a[1..] + b;
      assert FeaturedOf(a + b) == h + FeaturedOf(a[1..] + b);
      FeaturedOfAppend(a[1..], b);
      Sorting.ConcatAssoc(h, FeaturedOf(a[1..]), FeaturedOf(b));
    }
  }

  /** Six venues of which only the first two are featured, as on the page. */
  predicate FeaturedAsOnPage(s: seq<HomeVenue>)
  {
    |s| == 6 && s[0].featured && s[1].featured &&
    !s[2].featured && !s[3].featured && !s[4].featured && !s[5].featured
  }

  lemma FeaturedFirstTwo(s: seq<HomeVenue>)
    requires FeaturedAsOnPage(s)
    ensures FeaturedOf(s) == [s[0], s[1]]
  {
    assert s[5..][1..] == [];
    assert FeaturedOf(s[5..]) == [];
    assert s[4..][1..] == s[5..];
    assert FeaturedOf(s[4..]) == [];
    assert s[3..][1..] == s[4..];
    assert FeaturedOf(s[3..]) == [];
    assert s[2..][1..] == s[3..];
    assert FeaturedOf(s[2..]) == [];
    assert s[1..][1..] == s[2..];
    assert FeaturedOf(s[1..]) == [s[1]];
  }

  /** The featured venues are "1" and "2", in catalogue order. */
  lemma FeaturedExample()
    ensures FeaturedOf(HomeVenues) == [HomeVenues[0], HomeVenues[1]]
  {
    assert FeaturedAsOnPage(HomeVenues);
    FeaturedFirstTwo(HomeVenues);
  }

  // ---------------------------------------------------------------- top rated

  /** The comparator `b.rating - a.rating` orders by this key, ascending. */
  function ByRatingDesc(v: HomeVenue): int
  {
    -(v.rating as int)
  }

  /** `slice(0, 3)`. */
  function Top(s: seq<HomeVenue>): (r: seq<HomeVenue>)
    ensures |r| <= TopCount && |r| <= |s| && r == s[..|r|]
    ensures |r| == if |s| < TopCount then |s| else TopCount
  {
    if |s| <= TopCount then s else s[..TopCount]
  }

  /** The best-rated venues as the page computes them from a list. */
  function TopRatedOf(venues: seq<HomeVenue>): seq<HomeVenue>
  {
    Top(Sorting.SortBy(venues, ByRatingDesc))
  }

  /**
   * At most three venues, all taken from the list, ratings never rising
   * from one to the next, and no venue left out rated above one kept.
   */
  lemma TopRatedSpec(venues: seq<HomeVenue>)
    ensures var t := TopRatedOf(venues);
      && |t| <= TopCount
      && multiset(t) <= multiset(venues)
      && (forall i, j :: 0 <= i < j < |t| ==> t[i].rating >= t[j].rating)
    ensures var s := Sorting.SortBy(venues, ByRatingDesc); var t := TopRatedOf(venues);
      multiset(venues) == multiset(s) &&
      forall i, k :: 0 <= i < |t| <= k < |s| ==> s[k].rating <= t[i].rating
  {
    var s := Sorting.SortBy(venues, ByRatingDesc);
    Sorting.SortBySorted(venues, ByRatingDesc);
    Sorting.SortByPermutes(venues, ByRatingDesc);
    var t := Top(s);
    assert s == t + s[|t|..];
    assert multiset(s) == multiset(t) + multiset(s[|t|..]);
    forall i, j | 0 <= i < j < |t| ensures t[i].rating >= t[j].rating {
      assert ByRatingDesc(s[i]) <= ByRatingDesc(s[j]);
    }
    forall i, k | 0 <= i < |t| <= k < |s| ensures s[k].rating <= t[i].rating {
      assert ByRatingDesc(s[i]) <= ByRatingDesc(s[k]);
    }
  }

  /** Six venues rated as on the page: 4.5, 4.8, 4.2, 4.9, 4.6 and 4.7. */
  predicate RatedAsOnPage(s: seq<HomeVenue>)
  {
    |s| == 6 && s[0].rating == 45 && s[1].rating == 48 && s[2].rating == 42 &&
    s[3].rating == 49 && s[4].rating == 46 && s[5].rating == 47
  }

  /**
   * One insertion step of the sort: when the first `i` venues sort to `p`,
   * the first `i + 1` sort to `p` with venue `i` placed at the position `j`
   * that the keys determine.
   */
  lemma SortStepAt(s: seq<HomeVenue>, i: nat, p: seq<HomeVenue>, j: nat, r: seq<HomeVenue>)
    requires i < |s| && j <= |p|
    requires p == Sorting.SortBy(s[..i], ByRatingDesc)
    requires forall k :: 0 <= k < j ==> ByRatingDesc(p[k]) <= ByRatingDesc(s[i])
    requires forall k :: j <= k < |p| ==> ByRatingDesc(s[i]) < ByRatingDesc(p[k])
    requires r == p[..j] + [s[i]] + p[j..]
    ensures Sorting.SortBy(s[..i + 1], ByRatingDesc) == r
  {
    SortStep(s, i);
    Sorting.InsertByAt(p, s[i], ByRatingDesc, j);
  }

  /** Venue `i` rated strictly below everything sorted so far goes last. */
  lemma PlaceLast(s: seq<HomeVenue>, i: nat, p: seq<HomeVenue>)
    requires i < |s| && p == Sorting.SortBy(s[..i], ByRatingDesc)
    requires forall k :: 0 <= k < |p| ==> ByRatingDesc(p[k]) <= ByRatingDesc(s[i])
    ensures Sorting.SortBy(s[..i + 1], ByRatingDesc) == p + [s[i]]
  {
    assert p[..|p|] == p && p[|p|..] == [];
    SortStepAt(s, i, p, |p|, p + [s[i]]);
  }

  /** Venue `i` rated strictly above everything sorted so far goes first. */
  lemma PlaceFirst(s: seq<HomeVenue>, i: nat, p: seq<HomeVenue>)
    requires i < |s| && p == Sorting.SortBy(s[..i], ByRatingDesc)
    requires forall k :: 0 <= k < |p| ==> ByRatingDesc(s[i]) < ByRatingDesc(p[k])
    ensures Sorting.SortBy(s[..i + 1], ByRatingDesc) == [s[i]] + p
  {
    assert p[..0] == [] && p[0..] == p;
    SortStepAt(s, i, p, 0, [s[i]] + p);
  }

  /** Venue `i` rated between the second and the third sorted so far goes third. */
  lemma PlaceThird(s: seq<HomeVenue>, i: nat, p: seq<HomeVenue>)
    requires i < |s| && 2 <= |p| && p == Sorting.SortBy(s[..i], ByRatingDesc)
    requires ByRatingDesc(p[0]) <= ByRatingDesc(s[i]) && ByRatingDesc(p[1]) <= ByRatingDesc(s[i])
    requires forall k :: 2 <= k < |p| ==> ByRatingDesc(s[i]) < ByRatingDesc(p[k])
    ensures Sorting.SortBy(s[..i + 1], ByRatingDesc) == [p[0], p[1], s[i]] + p[2..]
  {
    assert p[..2] == [p[0], p[1]];
    assert [p[0], p[1]] + [s[i]] + p[2..] == [p[0], p[1], s[i]] + p[2..];
    SortStepAt(s, i, p, 2, [p[0], p[1], s[i]] + p[2..]);
  }

  lemma SortFirstTwo(s: seq<HomeVenue>)
    requires RatedAsOnPage(s)
    ensures Sorting.SortBy(s[..2], ByRatingDesc) == [s[1], s[0]]
  {
    assert s[..0] == [];
    SortStep(s, 0);
    PlaceFirst(s, 1, [s[0]]);
  }

  lemma SortFirstThree(s: seq<HomeVenue>)
    requires RatedAsOnPage(s)
    ensures Sorting.SortBy(s[..3], ByRatingDesc) == [s[1], s[0], s[2]]
  {
    SortFirstTwo(s);
    PlaceLast(s, 2, [s[1], s[0]]);
  }

  lemma SortFirstFour(s: seq<HomeVenue>)
    requires RatedAsOnPage(s)
    ensures Sorting.SortBy(s[..4], ByRatingDesc) == [s[3], s[1], s[0], s[2]]
  {
    SortFirstThree(s);
    PlaceFirst(s, 3, [s[1], s[0], s[2]]);
  }

  lemma SortFirstFive(s: seq<HomeVenue>)
    requires RatedAsOnPage(s)
    ensures Sorting.SortBy(s[..5], ByRatingDesc) == [s[3], s[1], s[4], s[0], s[2]]
  {
    SortFirstFour(s);
    var p := [s[3], s[1], s[0], s[2]];
    assert p[2..] == [s[0], s[2]];
    PlaceThird(s, 4, p);
  }

  lemma SortAllSix(s: seq<HomeVenue>)
    requires RatedAsOnPage(s)
    ensures Sorting.SortBy(s[..6], ByRatingDesc) == [s[3], s[1], s[5], s[4], s[0], s[2]]
  {
    SortFirstFive(s);
    var p := [s[3], s[1], s[4], s[0], s[2]];
    assert p[2..] == [s[4], s[0], s[2]];
    PlaceThird(s, 5, p);
  }

  /** With the page's data the three best rated are "4", "2" and "6". */
  lemma TopRatedExample()
    ensures TopRatedOf(HomeVenues) == [HomeVenues[3], HomeVenues[1], HomeVenues[5]]
  {
    assert RatedAsOnPage(HomeVenues);
    SortAllSix(HomeVenues);
    assert HomeVenues[..6] == HomeVenues;
  }

  /**
   * `venues.sort((a, b) => b.rating - a.rating)` on the page's array: an
   * insertion sort that leaves in `a` the stable sort of its old contents.
   */
  method SortByRating(a: array<HomeVenue>)
    modifies a
    ensures a[..] == Sorting.SortBy(old(a[..]), ByRatingDesc)
  {
    ghost var input := a[..];
    var i := 0;
    while i < a.Length
      invariant 0 <= i <= a.Length
      invariant a[..i] == Sorting.SortBy(input[..i], ByRatingDesc)
      invariant forall k :: i <= k < a.Length ==> a[k] == input[k]
    {
      SortedPrefix(input, i);
      InsertNext(a, i);
      SortStep(input, i);
      i := i + 1;
    }
    assert a[..] == a[..a.Length];
    assert input == input[..a.Length];
  }

  lemma SortedPrefix(input: seq<HomeVenue>, i: nat)
    requires i <= |input|
    ensures Sorting.SortedBy(Sorting.SortBy(input[..i], ByRatingDesc), ByRatingDesc)
  {
    Sorting.SortBySorted(input[..i], ByRatingDesc);
  }

  /** Inserting the next input element into the sorted prefix sorts one more element. */
  lemma SortStep(input: seq<HomeVenue>, i: nat)
    requires i < |input|
    ensures Sorting.InsertBy(Sorting.SortBy(input[..i], ByRatingDesc), input[i], ByRatingDesc)
      == Sorting.SortBy(input[..i + 1], ByRatingDesc)
  {
    assert input[..i + 1] == input[..i] + [input[i]];
    Sorting.SortBySnoc(input[..i], input[i], ByRatingDesc);
  }

  /** One pass of the insertion sort: `a[i]` moves left past every element rated below it. */
  method InsertNext(a: array<HomeVenue>, i: nat)
    requires i < a.Length
    requires Sorting.SortedBy(a[..i], ByRatingDesc)
    modifies a
    ensures a[..i + 1] == Sorting.InsertBy(old(a[..i]), old(a[i]), ByRatingDesc)
    ensures forall k :: i < k < a.Length ==> a[k] == old(a[k])
  {
    ghost var sorted := a[..i];
    var x := a[i];
    var j := ShiftRatedBelow(a, i, x);
    a[j] := x;
    InsertHere(sorted, x, j);
    ghost var after := a[..i + 1];
    assert forall k :: 0 <= k <= i ==> after[k] == a[k];
    Shifted(after, sorted, x, j);
  }

  /**
   * The inner loop: every element of `a[..i]` rated below `x`, a run at the
   * end of the sorted prefix, moves one place right; `j` is the gap left.
   */
  method ShiftRatedBelow(a: array<HomeVenue>, i: nat, x: HomeVenue) returns (j: nat)
    requires i < a.Length
    modifies a
    ensures j <= i
    ensures forall k :: 0 <= k < j ==> a[k] == old(a[k])
    ensures forall k :: j < k <= i ==> a[k] == old(a[k - 1])
    ensures forall k :: i < k < a.Length ==> a[k] == old(a[k])
    ensures forall k :: j <= k < i ==> ByRatingDesc(x) < ByRatingDesc(old(a[k]))
    ensures j == 0 || ByRatingDesc(old(a[j - 1])) <= ByRatingDesc(x)
  {
    ghost var before := a[..];
    j := i;
    while j > 0 && ByRatingDesc(a[j - 1]) > ByRatingDesc(x)
      invariant 0 <= j <= i
      invariant forall k :: 0 <= k < j ==> a[k] == before[k]
      invariant forall k :: j < k <= i ==> a[k] == before[k - 1]
      invariant forall k :: i < k < a.Length ==> a[k] == before[k]
      invariant forall k :: j <= k < i ==> ByRatingDesc(x) < ByRatingDesc(before[k])
    {
      a[j] := a[j - 1];
      j := j - 1;
    }
  }

  /** A list that holds `sorted` with `x` placed at `j` and the rest shifted right is that insertion. */
  lemma Shifted(after: seq<HomeVenue>, sorted: seq<HomeVenue>, x: HomeVenue, j: nat)
    requires j <= |sorted| && |after| == |sorted| + 1
    requires forall k :: 0 <= k < j ==> after[k] == sorted[k]
    requires after[j] == x
    requires forall k :: j < k < |after| ==> after[k] == sorted[k - 1]
    ensures after == sorted[..j] + [x] + sorted[j..]
  {
    var expected := sorted[..j] + [x] + sorted[j..];
    forall k | 0 <= k < |after| ensures after[k] == expected[k] {
      if k < j {
        assert expected[k] == sorted[k];
      } else if k == j {
        assert expected[k] == x;
      } else {
        assert expected[k] == sorted[k - 1];
      }
    }
  }

  /** The insertion point the inner loop stops at is the one `InsertBy` uses. */
  lemma InsertHere(sorted: seq<HomeVenue>, x: HomeVenue, j: nat)
    requires Sorting.SortedBy(sorted, ByRatingDesc)
    requires j <= |sorted|
    requires j == 0 || ByRatingDesc(sorted[j - 1]) <= ByRatingDesc(x)
    requires forall k :: j <= k < |sorted| ==> ByRatingDesc(x) < ByRatingDesc(sorted[k])
    ensures Sorting.InsertBy(sorted, x, ByRatingDesc) == sorted[..j] + [x] + sorted[j..]
  {
    forall k | 0 <= k < j ensures ByRatingDesc(sorted[k]) <= ByRatingDesc(x) {
      assert ByRatingDesc(sorted[k]) <= ByRatingDesc(sorted[j - 1]);
    }
    Sorting.InsertByAt(sorted, x, ByRatingDesc, j);
  }

  /**
   * The page's effect: the featured list is taken before the array is
   * sorted, so it keeps catalogue order; the top-rated list is the first
   * three of the sorted array.
   */
  method LoadLists(venues: seq<HomeVenue>) returns (featured: seq<HomeVenue>, topRated: seq<HomeVenue>)
    ensures featured == FeaturedOf(venues)
    ensures topRated == TopRatedOf(venues)
  {
    var a := new HomeVenue[|venues|](k requires 0 <= k < |venues| => venues[k]);
    assert a[..] == venues;
    featured := FeaturedOf(a[..]);
    SortByRating(a);
    topRated := Top(a[..]);
  }
}
