/**
 * Favorites: each selector (a signed-in user or an anonymous visitor) may
 * mark photos of a gallery, up to the gallery's effective limit. Counts are
 * kept per (gallery, selector), so selectors never see each other's marks.
 */
module Favorites {
  import opened Common
  import opened GalleryDb

  const DefaultFavoritesLimit: int := 50

  /** `get_effective_limit`: the gallery's own limit when it is set and positive, else the default of 50. */
  function EffectiveLimit(favoritesLimit: Option<int>): (limit: int)
    ensures limit >= 1
    ensures limit == DefaultFavoritesLimit || Some(limit) == favoritesLimit
  {
    if favoritesLimit.Some? && favoritesLimit.value > 0 then favoritesLimit.value else DefaultFavoritesLimit
  }

  predicate Selects(f: Favorite, galleryId: nat, selector: string) {
    f.galleryId == galleryId && f.selector == selector
  }

  /** `list_favorites`: the rows of one selector in one gallery, in table order. */
  function ListFavorites(favs: seq<Favorite>, galleryId: nat, selector: string): (r: seq<Favorite>)
    ensures forall f :: f in r <==> f in favs && Selects(f, galleryId, selector)
    decreases |favs|
  {
    if favs == [] then []
    else
      var rest := ListFavorites(favs[1..], galleryId, selector);
      assert forall f :: f in favs <==> f == favs[0] || f in favs[1..];
      if Selects(favs[0], galleryId, selector) then [favs[0]] + rest else rest
  }

  /** `count_favorites`: how many rows one selector has in one gallery. */
  function CountFavorites(favs: seq<Favorite>, galleryId: nat, selector: string): nat
    decreases |favs|
  {
    if favs == [] then 0
    else (if Selects(favs[0], galleryId, selector) then 1 else 0) + CountFavorites(favs[1..], galleryId, selector)
  }

  /** The count is the length of the list. */
  lemma {:induction false} CountIsListLength(favs: seq<Favorite>, galleryId: nat, selector: string)
    ensures CountFavorites(favs, galleryId, selector) == |ListFavorites(favs, galleryId, selector)|
    decreases |favs|
  {
    if favs != [] {
      CountIsListLength(favs[1..], galleryId, selector);
    }
  }

  lemma {:induction false} CountAppend(favs: seq<Favorite>, f: Favorite, galleryId: nat, selector: string)
    ensures CountFavorites(favs + [f], galleryId, selector)
            == CountFavorites(favs, galleryId, selector) + (if Selects(f, galleryId, selector) then 1 else 0)
    decreases |favs|
  {
    if favs == [] {
      assert favs + [f] == [f];
    } else {
      assert (favs + [f])[1..] == favs[1..] + [f];
      CountAppend(favs[1..], f, galleryId, selector);
    }
  }

  /** The rows `q.delete()` keeps: all but those of one (gallery, photo, selector). */
  function Without(favs: seq<Favorite>, f: Favorite): (r: seq<Favorite>)
    ensures forall x :: x in r <==> x in favs && x != f
    decreases |favs|
  {
    if favs == [] then []
    else
      var rest := Without(favs[1..], f);
      assert forall x :: x in favs <==> x == favs[0] || x in favs[1..];
      if favs[0] == f then rest else [favs[0]] + rest
  }

  /** Deleting a row lowers its own selector's count by the number of copies, and leaves other counts alone. */
  lemma {:induction false} CountWithout(favs: seq<Favorite>, f: Favorite, galleryId: nat, selector: string)
    ensures !Selects(f, galleryId, selector) ==>
              CountFavorites(Without(favs, f), galleryId, selector) == CountFavorites(favs, galleryId, selector)
    ensures CountFavorites(Without(favs, f), galleryId, selector) <= CountFavorites(favs, galleryId, selector)
    ensures f in favs && Selects(f, galleryId, selector) ==>
              CountFavorites(Without(favs, f), galleryId, selector) < CountFavorites(favs, galleryId, selector)
    decreases |favs|
  {
    if favs != [] {
      CountWithout(favs[1..], f, galleryId, selector);
      assert f in favs ==> f == favs[0] || f in favs[1..];
    }
  }

  /** Deleting from a table without duplicates keeps it without duplicates. */
  lemma {:induction false} WithoutKeepsUnique(favs: seq<Favorite>, f: Favorite)
    requires UniqueFavorites(favs)
    ensures UniqueFavorites(Without(favs, f))
    decreases |favs|
  {
    if favs != [] {
      assert UniqueFavorites(favs[1..]) by {
        forall i, j | 0 <= i < j < |favs[1..]| ensures favs[1..][i] != favs[1..][j] {
          assert favs[1..][i] == favs[i + 1] && favs[1..][j] == favs[j + 1];
        }
      }
      WithoutKeepsUnique(favs[1..], f);
      var rest := Without(favs[1..], f);
      if favs[0] != f {
        assert favs[0] !in favs[1..];
        assert favs[0] !in rest;
        var r := [favs[0]] + rest;
        forall i, j | 0 <= i < j < |r| ensures r[i] != r[j] {
          if i == 0 {
            assert r[j] == rest[j - 1];
          } else {
            assert r[i] == rest[i - 1] && r[j] == rest[j - 1];
          }
        }
      }
    }
  }

  /** The outcomes of `add_favorite`: the new row, an error message, or the unique constraint failing at commit. */
  datatype AddOutcome = Added(favorite: Favorite) | Refused(message: string) | IntegrityError

  const PhotoNotFound: string := "Photo not found in gallery"
  const LimitReached: string := "Favorites limit reached"

  /** The photo exists and belongs to the gallery. */
  predicate PhotoInGallery(photos: map<nat, Photo>, galleryId: nat, photoId: nat) {
    photoId in photos && photos[photoId].galleryId == galleryId
  }

  /** `add_favorite`: what it returns and the favorites table afterwards. */
  datatype Addition = Addition(outcome: AddOutcome, favorites: seq<Favorite>)

  function AddFavoriteSpec(favs: seq<Favorite>, photos: map<nat, Photo>, galleryId: nat, limit: Option<int>, photoId: nat, selector: string): Addition {
    var row := Favorite(galleryId, photoId, selector);
    if !PhotoInGallery(photos, galleryId, photoId) then Addition(Refused(PhotoNotFound), favs)
    else if CountFavorites(favs, galleryId, selector) >= EffectiveLimit(limit) then Addition(Refused(LimitReached), favs)
    else if row in favs then Addition(IntegrityError, favs)
    else Addition(Added(row), favs + [row])
  }

  /**
   * `add_favorite`: the photo check comes first and a refused or failed
   * addition changes nothing; a successful one adds exactly its own row;
   * counts of every other (gallery, selector) stay as they were; and a
   * selector at or under the limit stays at or under it.
   */
  lemma AddFavoriteSpecProperties(favs: seq<Favorite>, photos: map<nat, Photo>, galleryId: nat, limit: Option<int>, photoId: nat, selector: string)
    ensures var a := AddFavoriteSpec(favs, photos, galleryId, limit, photoId, selector);
            !PhotoInGallery(photos, galleryId, photoId) ==> a.outcome == Refused(PhotoNotFound)
    ensures var a := AddFavoriteSpec(favs, photos, galleryId, limit, photoId, selector);
            !a.outcome.Added? ==> a.favorites == favs
    ensures var a := AddFavoriteSpec(favs, photos, galleryId, limit, photoId, selector);
            a.outcome.Added? <==>
              PhotoInGallery(photos, galleryId, photoId)
              && CountFavorites(favs, galleryId, selector) < EffectiveLimit(limit)
              && Favorite(galleryId, photoId, selector) !in favs
    ensures var a := AddFavoriteSpec(favs, photos, galleryId, limit, photoId, selector);
            a.outcome.Added? ==>
              a.outcome.favorite == Favorite(galleryId, photoId, selector)
              && a.favorites == favs + [Favorite(galleryId, photoId, selector)]
              && CountFavorites(a.favorites, galleryId, selector) == CountFavorites(favs, galleryId, selector) + 1
    ensures var a := AddFavoriteSpec(favs, photos, galleryId, limit, photoId, selector);
            forall g: nat, s: string :: (g, s) != (galleryId, selector) ==>
              CountFavorites(a.favorites, g, s) == CountFavorites(favs, g, s)
    ensures var a := AddFavoriteSpec(favs, photos, galleryId, limit, photoId, selector);
            CountFavorites(favs, galleryId, selector) <= EffectiveLimit(limit) ==>
              CountFavorites(a.favorites, galleryId, selector) <= EffectiveLimit(limit)
    ensures var a := AddFavoriteSpec(favs, photos, galleryId, limit, photoId, selector);
            UniqueFavorites(favs) ==> UniqueFavorites(a.favorites)
  {
    var row := Favorite(galleryId, photoId, selector);
    forall g: nat, s: string {
      CountAppend(favs, row, g, s);
    }
    if UniqueFavorites(favs) && row !in favs {
      var r := favs + [row];
      forall i, j | 0 <= i < j < |r| ensures r[i] != r[j] {
        if j == |favs| {
          assert r[i] in favs;
        }
      }
    }
  }

  /** What the favorites route answers for an addition: 201, 409 when the limit is reached, 400 for other refusals. */
  function AddStatus(o: AddOutcome): (code: nat)
    requires !o.IntegrityError?
    ensures code == 409 <==> o == Refused(LimitReached)
    ensures code == 201 <==> o.Added?
  {
    match o
    case Added(_) => 201
    case Refused(m) => if m == LimitReached then 409 else 400
  }

  /** `remove_favorite`: whether a row was found, and the table afterwards. */
  datatype Removal = Removal(removed: bool, favorites: seq<Favorite>)

  function RemoveFavoriteSpec(favs: seq<Favorite>, galleryId: nat, photoId: nat, selector: string): Removal {
    var row := Favorite(galleryId, photoId, selector);
    if row in favs then Removal(true, Without(favs, row)) else Removal(false, favs)
  }

  /**
   * `remove_favorite` reports true exactly when the row existed, and then
   * no such row is left, the selector's count drops by one and every other
   * count is unchanged; otherwise nothing changes.
   */
  lemma RemoveFavoriteSpecProperties(favs: seq<Favorite>, galleryId: nat, photoId: nat, selector: string)
    requires UniqueFavorites(favs)
    ensures var r := RemoveFavoriteSpec(favs, galleryId, photoId, selector);
            r.removed <==> Favorite(galleryId, photoId, selector) in favs
    ensures var r := RemoveFavoriteSpec(favs, galleryId, photoId, selector);
            !r.removed ==> r.favorites == favs
    ensures var r := RemoveFavoriteSpec(favs, galleryId, photoId, selector);
            Favorite(galleryId, photoId, selector) !in r.favorites
            && forall f :: f in r.favorites <==> f in favs && f != Favorite(galleryId, photoId, selector)
    ensures var r := RemoveFavoriteSpec(favs, galleryId, photoId, selector);
            r.removed ==> CountFavorites(r.favorites, galleryId, selector) == CountFavorites(favs, galleryId, selector) - 1
    ensures var r := RemoveFavoriteSpec(favs, galleryId, photoId, selector);
            forall g: nat, s: string :: (g, s) != (galleryId, selector) ==>
              CountFavorites(r.favorites, g, s) == CountFavorites(favs, g, s)
    ensures UniqueFavorites(RemoveFavoriteSpec(favs, galleryId, photoId, selector).favorites)
  {
    var row := Favorite(galleryId, photoId, selector);
    forall g: nat, s: string {
      CountWithout(favs, row, g, s);
    }
    WithoutKeepsUnique(favs, row);
    if row in favs {
      WithoutOneCopy(favs, row);
    }
  }

  /** Without duplicates, deleting a present row lowers its selector's count by exactly one. */
  lemma {:induction false} WithoutOneCopy(favs: seq<Favorite>, f: Favorite)
    requires UniqueFavorites(favs) && f in favs
    ensures CountFavorites(Without(favs, f), f.galleryId, f.selector) == CountFavorites(favs, f.galleryId, f.selector) - 1
    decreases |favs|
  {
    assert UniqueFavorites(favs[1..]) by {
      forall i, j | 0 <= i < j < |favs[1..]| ensures favs[1..][i] != favs[1..][j] {
        assert favs[1..][i] == favs[i + 1] && favs[1..][j] == favs[j + 1];
      }
    }
    if favs[0] == f {
      assert f !in favs[1..];
      NotInWithout(favs[1..], f);
    } else {
      WithoutOneCopy(favs[1..], f);
    }
  }

  /** Deleting an absent row keeps the table. */
  lemma {:induction false} NotInWithout(favs: seq<Favorite>, f: Favorite)
    requires f !in favs
    ensures Without(favs, f) == favs
    decreases |favs|
  {
    if favs != [] {
      NotInWithout(favs[1..], f);
    }
  }

  /** `set_gallery_favorites_limit`: a negative limit is stored as none, anything else as given. */
  function StoredLimit(limit: Option<int>): (stored: Option<int>)
    ensures stored.Some? ==> stored == limit && stored.value >= 0
    ensures limit.None? || limit.value >= 0 ==> stored == limit
  {
    if limit.None? || limit.value >= 0 then limit else None
  }

  /**
   * Whatever is stored, the effective limit is the stored positive value
   * or 50: setting 0 or a negative number, or clearing the limit, gives
   * back the default.
   */
  lemma SetLimitEffect(limit: Option<int>)
    ensures EffectiveLimit(StoredLimit(limit)) == if limit.Some? && limit.value > 0 then limit.value else DefaultFavoritesLimit
  {
  }

  /** `add_favorite` on the database: the gallery is the row the route loaded. */
  method AddFavorite(db: Db, galleryId: nat, photoId: nat, selector: string) returns (outcome: AddOutcome)
    requires db.Valid() && galleryId in db.galleries
    modifies db`favorites
    ensures db.Valid()
    ensures var a := AddFavoriteSpec(old(db.favorites), db.photos, galleryId, db.galleries[galleryId].favoritesLimit, photoId, selector);
            outcome == a.outcome && db.favorites == a.favorites
  {
    AddFavoriteSpecProperties(db.favorites, db.photos, galleryId, db.galleries[galleryId].favoritesLimit, photoId, selector);
    if !(photoId in db.photos && db.photos[photoId].galleryId == galleryId) {
      return Refused(PhotoNotFound);
    }
    var current := CountFavorites(db.favorites, galleryId, selector);
    if current >= EffectiveLimit(db.galleries[galleryId].favoritesLimit) {
      return Refused(LimitReached);
    }
    var fav := Favorite(galleryId, photoId, selector);
    if fav in db.favorites {
      return IntegrityError;
    }
    db.favorites := db.favorites + [fav];
    outcome := Added(fav);
  }

  /** `remove_favorite` on the database. */
  method RemoveFavorite(db: Db, galleryId: nat, photoId: nat, selector: string) returns (removed: bool)
    requires db.Valid()
    modifies db`favorites
    ensures db.Valid()
    ensures var r := RemoveFavoriteSpec(old(db.favorites), galleryId, photoId, selector);
            removed == r.removed && db.favorites == r.favorites
  {
    RemoveFavoriteSpecProperties(db.favorites, galleryId, photoId, selector);
    var row := Favorite(galleryId, photoId, selector);
    if row in db.favorites {
      db.favorites := Without(db.favorites, row);
      return true;
    }
    return false;
  }

  /** `set_gallery_favorites_limit` on the database; only the gallery's limit column changes. */
  method SetGalleryFavoritesLimit(db: Db, galleryId: nat, limit: Option<int>) returns (g: Gallery)
    requires galleryId in db.galleries
    modifies db`galleries
    ensures g == old(db.galleries)[galleryId].(favoritesLimit := StoredLimit(limit))
    ensures db.galleries == old(db.galleries)[galleryId := g]
  {
    g := db.galleries[galleryId];
    g := g.(favoritesLimit := if limit.None? || limit.value >= 0 then limit else None);
    db.galleries := db.galleries[galleryId := g];
  }
}
