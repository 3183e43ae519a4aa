/**
 * The venue detail page: an image carousel that wraps around at both
 * ends, the sidebar's four-hour price, and the badge of an availability
 * slot.
 */
module VenueDetail {
  import opened CalendarView

  /** The mock venue's gallery and hourly price. */
  const ImageCount: nat := 4
  const PricePerHour: nat := 1200
  const CleaningFee: nat := 150
  const ServiceFee: nat := 75
  /** The sidebar prices this many hours. */
  const QuotedHours: nat := 4

  // ---------------------------------------------------------------- carousel

  /** `nextImage`'s update: the last index wraps to 0. */
  function NextIndex(n: nat, i: nat): (r: nat)
    requires i < n
    ensures r < n && r == (i + 1) % n
  {
    if i == n - 1 then 0 else i + 1
  }

  /** `prevImage`'s update: index 0 wraps to the last. */
  function PrevIndex(n: nat, i: nat): (r: nat)
    requires i < n
    ensures r < n && NextIndex(n, r) == i
  {
    if i == 0 then n - 1 else i - 1
  }

  /** Back after forward, and forward after back, return to the same image. */
  lemma PrevUndoesNext(n: nat, i: nat)
    requires i < n
    ensures PrevIndex(n, NextIndex(n, i)) == i
    ensures NextIndex(n, PrevIndex(n, i)) == i
  {
  }

  /** `k` steps forward from `i`. */
  function Forward(n: nat, i: nat, k: nat): (r: nat)
    requires i < n
    ensures r < n
  {
    if k == 0 then i else NextIndex(n, Forward(n, i, k - 1))
  }

  /** Before the end of the gallery, `k` steps forward are `k` places on. */
  lemma {:induction false} ForwardNoWrap(n: nat, i: nat, k: nat)
    requires i + k < n
    ensures Forward(n, i, k) == i + k
  {
    if k > 0 {
      ForwardNoWrap(n, i, k - 1);
    }
  }

  /** Walking `a` steps and then `b` steps is walking `a + b` steps. */
  lemma {:induction false} ForwardCompose(n: nat, i: nat, a: nat, b: nat)
    requires i < n
    ensures Forward(n, i, a + b) == Forward(n, Forward(n, i, a), b)
  {
    if b > 0 {
      ForwardCompose(n, i, a, b - 1);
    }
  }

  /** As many steps forward as there are images come back to the start. */
  lemma FullTurn(n: nat, i: nat)
    requires i < n
    ensures Forward(n, i, n) == i
  {
    ForwardNoWrap(n, i, n - i - 1);
    assert Forward(n, i, n - i) == 0;
    ForwardCompose(n, i, n - i, i);
    if i > 0 {
      ForwardNoWrap(n, 0, i);
    }
  }

  /** The gallery with the index of the image on display. */
  class Carousel {
    const count: nat
    var index: nat

    ghost predicate Valid()
      reads this
    {
      index < count
    }

    /** The page opens on the first image. */
    constructor ()
      ensures Valid() && count == ImageCount && index == 0
    {
      count := ImageCount;
      index := 0;
    }

    method NextImage()
      requires Valid()
      modifies this
      ensures Valid() && index == NextIndex(count, old(index))
    {
      index := if index == count - 1 then 0 else index + 1;
    }

    method PrevImage()
      requires Valid()
      modifies this
      ensures Valid() && index == PrevIndex(count, old(index))
    {
      index := if index == 0 then count - 1 else index - 1;
    }

    /** A dot button shows its own image; there is one button per image. */
    method ShowImage(i: nat)
      requires Valid() && i < count
      modifies this
      ensures Valid() && index == i
    {
      index := i;
    }
  }

  /** Forward from the last image is the first, and back from the first is the last. */
  method CarouselWalkthrough()
  {
    var c := new Carousel();
    c.PrevImage();
    assert c.index == 3;
    c.NextImage();
    assert c.index == 0;
    c.ShowImage(2);
    c.NextImage();
    assert c.index == 3;
  }

  // ---------------------------------------------------------------- sidebar

  /** The sidebar's "Total (for 4 hours)": four hours at the hourly price plus the two fees. */
  function SidebarTotal(pricePerHour: nat): nat
  {
    pricePerHour * QuotedHours + CleaningFee + ServiceFee
  }

  /** At 1200 an hour the quote is 5025; each extra dollar an hour adds four to it. */
  lemma SidebarTotalSpec(p: nat)
    ensures SidebarTotal(PricePerHour) == 5025
    ensures SidebarTotal(p + 1) == SidebarTotal(p) + QuotedHours
  {
  }

  // ---------------------------------------------------------------- slots

  datatype BadgeVariant = Outline | Secondary | Destructive

  /** A slot's badge: its label and its variant. */
  function SlotBadge(s: SlotStatus): (string, BadgeVariant)
  {
    if s == Available then ("Available", Outline)
    else if s == Pending then ("Pending", Secondary)
    else ("Booked", Destructive)
  }

  /** Only an available slot gets the outline badge, and each status has its own label. */
  lemma SlotBadgeSpec(s: SlotStatus, t: SlotStatus)
    ensures SlotBadge(s).1 == Outline <==> s == Available
    ensures SlotBadge(s).1 == Destructive <==> s == Booked
    ensures s != t ==> SlotBadge(s).0 != SlotBadge(t).0
  {
  }
}
