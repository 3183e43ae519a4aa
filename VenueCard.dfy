/** The venue record shared by the listing page and the booking wizard. */
module VenueCard {
  import opened Wrappers

  /**
   * A catalogue venue. `price` is the hourly price in dollars, `rating` is
   * in tenths of a star (4.9 is 49), and `tags` is optional.
   */
  datatype VenueProps = VenueProps(
    id: string,
    name: string,
    description: string,
    location: string,
    capacity: nat,
    price: nat,
    rating: nat,
    tags: Option<seq<string>>)
}
