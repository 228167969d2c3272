/** The listing record as the client receives it from the server, restricted
    to the fields the modelled logic reads. */
module ListingTypes {

  /** A marketplace listing. `status` is the moderation status the admin view
      reads ("active", "inactive", "pending"); "" stands for a listing without one.
      Prices are whole hryvnias. */
  datatype Listing = Listing(
    id: int,
    title: string,
    description: string,
    price: int,
    location: string,
    category: string,
    userId: int,
    active: bool,
    status: string)

  /** Pagination metadata attached to a page of listings. */
  datatype Meta = Meta(total: int, page: int, limit: int, pages: int)
}
