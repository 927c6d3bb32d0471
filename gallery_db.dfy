/**
 * The rows of the gallery tables that the download-quota, favorites and
 * download services read and write, and the database session they share.
 * Times are whole seconds since the epoch, in UTC.
 */
module GalleryDb {
  import opened Common

  /** A row of `galleries`, reduced to the columns the services use. */
  datatype Gallery = Gallery(
    ownerId: nat,
    isPublic: bool,
    downloadCount: Option<int>,
    downloadLimit: Option<int>,
    resetsAt: Option<int>,
    favoritesLimit: Option<int>)

  /** A row of `photos`. */
  datatype Photo = Photo(id: nat, galleryId: nat, filename: string, ext: string)

  /** A row of `favorites`: one photo marked by one selector in one gallery. */
  datatype Favorite = Favorite(galleryId: nat, photoId: nat, selector: string)

  /** The `uq_favorite_unique` constraint: no (gallery, photo, selector) triple occurs twice. */
  predicate UniqueFavorites(favs: seq<Favorite>) {
    forall i, j :: 0 <= i < j < |favs| ==> favs[i] != favs[j]
  }

  /** The tables, as a session sees them after each commit. */
  class Db {
    var galleries: map<nat, Gallery>
    /** Photos by primary key. */
    var photos: map<nat, Photo>
    var favorites: seq<Favorite>

    predicate Valid()
      reads this
    {
      UniqueFavorites(favorites)
      && forall id :: id in photos ==> photos[id].id == id
    }

    constructor(galleries: map<nat, Gallery>, photos: map<nat, Photo>)
      requires forall id :: id in photos ==> photos[id].id == id
      ensures Valid()
      ensures this.galleries == galleries && this.photos == photos && favorites == []
    {
      this.galleries := galleries;
      this.photos := photos;
      favorites := [];
    }
  }
}
