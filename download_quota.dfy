/**
 * The per-gallery download quota: a counter of reserved downloads, an
 * optional limit, and a reset window that starts with the first
 * reservation. Owners and internal staff are never counted.
 *
 * The code as written clears a misspelled attribute when a window expires,
 * so the window never really closes (`ClearWindowAsWritten`,
 * `ReserveAsWritten`); the model's `Reserve` and the database method use the
 * evidently intended reset that clears `resets_at`.
 */
module DownloadQuota {
  import opened Common
  import opened Decimal
  import opened GalleryDb

  /** The caller of a download route, when one is signed in: its user id and the text of its role. */
  datatype Actor = Actor(id: Option<nat>, role: Option<string>)

  /** Roles whose downloads are never counted, compared after lower-casing. */
  const InternalRoles: set<string> := {"admin", "staff", "photographer"}

  /** The window a first reservation opens when the caller gives none: 24 hours. */
  const DefaultWindowSeconds: int := 24 * 3600

  /**
   * `_is_actor_owner_or_internal`: a caller whose id, spelled in decimal,
   * equals the owner id spelled in decimal, or whose non-empty role
   * lower-cases to an internal role. An anonymous caller is never internal.
   */
  predicate IsActorOwnerOrInternal(actor: Option<Actor>, ownerId: nat) {
    match actor
    case None => false
    case Some(a) =>
      (a.id.Some? && NatToString(a.id.value) == NatToString(ownerId))
      || (a.role.Some? && a.role.value != "" && Lower(a.role.value) in InternalRoles)
  }

  /**
   * An anonymous caller is not internal; a signed-in caller is internal
   * exactly when it owns the gallery or holds an internal role in any
   * letter case. Comparing the ids as text is comparing them as numbers.
   */
  lemma InternalActors(actor: Option<Actor>, ownerId: nat)
    ensures actor.None? ==> !IsActorOwnerOrInternal(actor, ownerId)
    ensures actor.Some? ==>
              (IsActorOwnerOrInternal(actor, ownerId) <==>
                 actor.value.id == Some(ownerId)
                 || (actor.value.role.Some? && Lower(actor.value.role.value) in InternalRoles))
  {
    if actor.Some? && actor.value.id.Some? && NatToString(actor.value.id.value) == NatToString(ownerId) {
      NatToStringInjective(actor.value.id.value, ownerId);
    }
  }

  /** `download_count`, with a null count read as 0. */
  function CountOf(g: Gallery): int {
    if g.downloadCount.Some? then g.downloadCount.value else 0
  }

  /** `resets_at` is set and `now` has reached it. */
  predicate WindowExpired(g: Gallery, now: int) {
    g.resetsAt.Some? && now >= g.resetsAt.value
  }

  /** The reset of an expired window as intended: the count goes to 0 and `resets_at` is cleared. */
  function ClearWindow(g: Gallery, now: int): Gallery {
    if WindowExpired(g, now) then g.(downloadCount := Some(0), resetsAt := None) else g
  }

  /** The reset as written: the clearing is assigned to a misspelled attribute, so only the count changes. */
  function ClearWindowAsWritten(g: Gallery, now: int): Gallery {
    if WindowExpired(g, now) then g.(downloadCount := Some(0)) else g
  }

  /** Python's `str` of an integer. */
  function IntToString(i: int): string {
    if i < 0 then "-" + NatToString(-i) else NatToString(i)
  }

  function LimitReachedDetail(count: int, limit: int): string {
    "Download limit reached (" + IntToString(count) + "/" + IntToString(limit) + "). Please contact the photographer."
  }

  /** What one call returns, and the row as committed afterwards. */
  datatype Reservation = Reservation(result: Result<Gallery>, row: Gallery)

  /**
   * The part after the window reset: an unlimited gallery passes uncounted;
   * otherwise the reservation is refused with 429 when it would exceed the
   * limit, or added to the count, opening a window when none is set and
   * the window length is non-zero.
   */
  function Enforce(g: Gallery, reserve: int, windowSeconds: Option<int>, now: int): Reservation {
    match g.downloadLimit
    case None => Reservation(Ok(g), g)
    case Some(limit) =>
      var count := CountOf(g);
      if count + reserve > limit then Reservation(HttpError(429, LimitReachedDetail(count, limit)), g)
      else
        var opensWindow := g.resetsAt.None? && windowSeconds.Some? && windowSeconds.value != 0;
        var r := g.(downloadCount := Some(count + reserve),
                    resetsAt := if opensWindow then Some(now + windowSeconds.value) else g.resetsAt);
        Reservation(Ok(r), r)
  }

  /** `check_and_reserve_download` on an existing gallery row, with the intended window reset. */
  function Reserve(g: Gallery, reserve: int, actor: Option<Actor>, windowSeconds: Option<int>, now: int): Reservation {
    if IsActorOwnerOrInternal(actor, g.ownerId) then Reservation(Ok(g), g)
    else Enforce(ClearWindow(g, now), reserve, windowSeconds, now)
  }

  /** `check_and_reserve_download` on an existing gallery row, as written. */
  function ReserveAsWritten(g: Gallery, reserve: int, actor: Option<Actor>, windowSeconds: Option<int>, now: int): Reservation {
    if IsActorOwnerOrInternal(actor, g.ownerId) then Reservation(Ok(g), g)
    else Enforce(ClearWindowAsWritten(g, now), reserve, windowSeconds, now)
  }

  /**
   * What one reservation does: internal callers change nothing; unlimited
   * galleries are returned without counting; a limited gallery refuses
   * with 429 exactly when the (reset) count plus the reservation exceeds
   * the limit, leaving the count alone, and otherwise adds the reservation,
   * so that a successful reservation never leaves the count above the
   * limit. The returned gallery is the committed row, and only the count
   * and the window ever change.
   */
  lemma ReserveSpec(g: Gallery, reserve: int, actor: Option<Actor>, windowSeconds: Option<int>, now: int)
    ensures var res := Reserve(g, reserve, actor, windowSeconds, now);
            IsActorOwnerOrInternal(actor, g.ownerId) ==> res.result == Ok(g) && res.row == g
    ensures var res := Reserve(g, reserve, actor, windowSeconds, now);
            !IsActorOwnerOrInternal(actor, g.ownerId) && g.downloadLimit.None? ==>
              res.result.Ok? && CountOf(res.row) == CountOf(ClearWindow(g, now))
    ensures var res := Reserve(g, reserve, actor, windowSeconds, now);
            !IsActorOwnerOrInternal(actor, g.ownerId) && g.downloadLimit.Some? ==>
              (res.result.HttpError? <==> CountOf(ClearWindow(g, now)) + reserve > g.downloadLimit.value)
              && (res.result.HttpError? ==> res.result.code == 429 && CountOf(res.row) == CountOf(ClearWindow(g, now)))
              && (res.result.Ok? ==> CountOf(res.row) == CountOf(ClearWindow(g, now)) + reserve <= g.downloadLimit.value)
    ensures var res := Reserve(g, reserve, actor, windowSeconds, now);
            (res.result.Ok? ==> res.result.value == res.row)
            && res.row == g.(downloadCount := res.row.downloadCount, resetsAt := res.row.resetsAt)
  {
  }

  /** A null count is read as 0: a limited gallery that never counted accepts any reservation up to its limit. */
  lemma NullCountIsZero(g: Gallery, reserve: int, actor: Option<Actor>, windowSeconds: Option<int>, now: int)
    requires g.downloadCount.None? && g.downloadLimit.Some? && !IsActorOwnerOrInternal(actor, g.ownerId)
    ensures Reserve(g, reserve, actor, windowSeconds, now).result.Ok? <==> reserve <= g.downloadLimit.value
  {
  }

  /** The first counted reservation with no window set opens one of `windowSeconds` from now. */
  lemma ReserveStartsWindow(g: Gallery, reserve: int, actor: Option<Actor>, w: int, now: int)
    requires !IsActorOwnerOrInternal(actor, g.ownerId) && g.downloadLimit.Some? && w != 0
    requires ClearWindow(g, now).resetsAt.None?
    requires Reserve(g, reserve, actor, Some(w), now).result.Ok?
    ensures Reserve(g, reserve, actor, Some(w), now).row.resetsAt == Some(now + w)
  {
  }

  /**
   * The intended quota: after a counted reservation with a positive
   * window, the window ends in the future, and until it ends a further
   * reservation sees the count the first one left, so reservations add up
   * against the limit.
   */
  lemma ReservationsAddUpWithinWindow(g: Gallery, k1: int, k2: int, actor: Option<Actor>, w: int, now: int, later: int)
    requires !IsActorOwnerOrInternal(actor, g.ownerId) && g.downloadLimit.Some? && w > 0
    requires Reserve(g, k1, actor, Some(w), now).result.Ok?
    ensures var r1 := Reserve(g, k1, actor, Some(w), now).row;
            r1.resetsAt.Some? && r1.resetsAt.value > now
    ensures var r1 := Reserve(g, k1, actor, Some(w), now).row;
            now <= later < r1.resetsAt.value ==>
              (Reserve(r1, k2, actor, Some(w), later).result.Ok?
               <==> CountOf(ClearWindow(g, now)) + k1 + k2 <= g.downloadLimit.value)
  {
    var g0 := ClearWindow(g, now);
    var r1 := Reserve(g, k1, actor, Some(w), now).row;
    assert g0.resetsAt.Some? ==> g0.resetsAt.value > now;
    assert r1.ownerId == g.ownerId && r1.downloadLimit == g.downloadLimit;
    assert CountOf(r1) == CountOf(g0) + k1;
    if now <= later < r1.resetsAt.value {
      assert !WindowExpired(r1, later);
      assert ClearWindow(r1, later) == r1;
    }
  }

  /**
   * As written, an expired window stays expired: the reset leaves
   * `resets_at` where it was, and a reservation only opens a window when
   * `resets_at` is empty. Every later call therefore resets the count again.
   */
  lemma StaleWindowPersistsAsWritten(g: Gallery, reserve: int, actor: Option<Actor>, windowSeconds: Option<int>, now: int, later: int)
    requires WindowExpired(g, now) && now <= later
    ensures ReserveAsWritten(g, reserve, actor, windowSeconds, now).row.resetsAt == g.resetsAt
    ensures WindowExpired(ReserveAsWritten(g, reserve, actor, windowSeconds, now).row, later)
    ensures !IsActorOwnerOrInternal(actor, g.ownerId) ==>
              CountOf(ClearWindowAsWritten(ReserveAsWritten(g, reserve, actor, windowSeconds, now).row, later)) == 0
  {
  }

  /**
   * The input that shows the misspelling: a gallery limited to one
   * download whose window ended at t = 100. As written, two anonymous
   * downloads at t = 200 and t = 300 both succeed, and so would any
   * number more.
   */
  lemma ExpiredWindowNeverClosesAsWritten()
    ensures var g := Gallery(1, false, Some(1), Some(1), Some(100), None);
            var first := ReserveAsWritten(g, 1, None, Some(DefaultWindowSeconds), 200);
            first.result.Ok? && ReserveAsWritten(first.row, 1, None, Some(DefaultWindowSeconds), 300).result.Ok?
  {
    var g := Gallery(1, false, Some(1), Some(1), Some(100), None);
    var w := Some(DefaultWindowSeconds);
    var stale := g.(downloadCount := Some(1));
    assert ClearWindowAsWritten(g, 200) == g.(downloadCount := Some(0));
    assert ReserveAsWritten(g, 1, None, w, 200) == Reservation(Ok(stale), stale);
    assert ClearWindowAsWritten(stale, 300) == g.(downloadCount := Some(0));
  }

  /** The same two downloads with the window cleared as intended: the second is refused with 429. */
  lemma ExpiredWindowRestartsWhenCleared()
    ensures var g := Gallery(1, false, Some(1), Some(1), Some(100), None);
            var first := Reserve(g, 1, None, Some(DefaultWindowSeconds), 200);
            first.result.Ok?
            && Reserve(first.row, 1, None, Some(DefaultWindowSeconds), 300).result.HttpError?
            && Reserve(first.row, 1, None, Some(DefaultWindowSeconds), 300).result.code == 429
  {
    var g := Gallery(1, false, Some(1), Some(1), Some(100), None);
    var w := Some(DefaultWindowSeconds);
    var reset := g.(downloadCount := Some(0), resetsAt := None);
    var counted := g.(downloadCount := Some(1), resetsAt := Some(200 + DefaultWindowSeconds));
    assert ClearWindow(g, 200) == reset;
    assert Enforce(reset, 1, w, 200).row == counted;
    assert ClearWindow(counted, 300) == counted;
  }

  /**
   * `check_and_reserve_download`: a missing gallery is a 404 before
   * anything is read; otherwise the row is reserved against as `Reserve`
   * says, and each change is committed to the table.
   */
  method CheckAndReserveDownload(db: Db, galleryId: nat, reserve: int, actor: Option<Actor>, windowSeconds: Option<int>, now: int)
    returns (r: Result<Gallery>)
    modifies db`galleries
    ensures galleryId !in old(db.galleries) ==>
              r == HttpError(404, "Gallery not found") && db.galleries == old(db.galleries)
    ensures galleryId in old(db.galleries) ==>
              var res := Reserve(old(db.galleries)[galleryId], reserve, actor, windowSeconds, now);
              r == res.result && db.galleries == old(db.galleries)[galleryId := res.row]
  {
    if galleryId !in db.galleries {
      return HttpError(404, "Gallery not found");
    }
    var gallery := db.galleries[galleryId];
    if IsActorOwnerOrInternal(actor, gallery.ownerId) {
      return Ok(gallery);
    }
    var limit := gallery.downloadLimit;
    var count := CountOf(gallery);
    if gallery.resetsAt.Some? && now >= gallery.resetsAt.value {
      gallery := gallery.(downloadCount := Some(0), resetsAt := None);
      db.galleries := db.galleries[galleryId := gallery];
      count := 0;
    }
    if limit.None? {
      return Ok(gallery);
    }
    if count + reserve > limit.value {
      return HttpError(429, LimitReachedDetail(count, limit.value));
    }
    gallery := gallery.(downloadCount := Some(count + reserve));
    if gallery.resetsAt.None? && windowSeconds.Some? && windowSeconds.value != 0 {
      gallery := gallery.(resetsAt := Some(now + windowSeconds.value));
    }
    db.galleries := db.galleries[galleryId := gallery];
    r := Ok(gallery);
  }
}
