/** Record shapes of the catalog, restricted to the fields the application's
    logic reads (types/game.ts). */
module GameTypes {
  import opened JsCore

  /** A genre, platform or tag reference: identity plus display name. */
  datatype Ref = Ref(id: int, name: string)

  /** One catalog entry. `addedToWishlist` is the optional provenance flag the
      wishlist store sets on the copies it keeps. */
  datatype Game = Game(
    id: int,
    name: string,
    released: Option<string>,
    metacritic: Option<int>,
    platforms: seq<Ref>,
    genres: seq<Ref>,
    tags: seq<Ref>,
    addedToWishlist: Option<bool>
  )

  /** One screenshot of a game. */
  datatype Screenshot = Screenshot(id: int, image: string)

  /** One page of a paginated list response: total count, the link to the
      following page (`null` on the last page) and the games of this page. */
  datatype Page = Page(count: int, next: Option<string>, previous: Option<string>, results: seq<Game>)

  /** The optional filters a caller may pass to the catalog search. */
  datatype GameSearchParams = GameSearchParams(
    search: Option<string>,
    page: Option<int>,
    pageSize: Option<int>,
    ordering: Option<string>,
    genres: Option<string>,
    platforms: Option<string>,
    metacritic: Option<string>
  )

  /** `{}`: no filter set. */
  const NoSearchParams := GameSearchParams(None, None, None, None, None, None, None)
}
