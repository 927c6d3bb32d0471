/**
 * Whole-gallery downloads: who may download, which photos make it into the
 * zip and under which entry names, and the refusal of an empty archive.
 * The zip itself is modelled by the entries written to it; the file system
 * by the set of paths that exist.
 */
module GalleryDownload {
  import opened Common
  import opened Decimal
  import opened GalleryDb

  // ------------------------------------------------------------ access

  function AccessCookieName(galleryId: nat): string {
    "gallery_access_" + NatToString(galleryId)
  }

  /**
   * `check_gallery_access`: 404 for a missing gallery; otherwise the gallery
   * when the caller owns it, when it is public, or when the gallery's access
   * cookie holds a token that `verify` accepts for it; 401 otherwise.
   * `caller` is the signed-in user's id.
   */
  function CheckGalleryAccess(galleries: map<nat, Gallery>, galleryId: nat, cookies: map<string, string>,
                              caller: Option<nat>, verify: (string, string) -> bool): (r: Result<Gallery>)
    ensures galleryId !in galleries <==> r == HttpError(404, "Gallery not found")
    ensures galleryId in galleries ==>
              (r.Ok? <==>
                 (caller.Some? && caller.value == galleries[galleryId].ownerId)
                 || galleries[galleryId].isPublic
                 || (AccessCookieName(galleryId) in cookies
                     && cookies[AccessCookieName(galleryId)] != ""
                     && verify(cookies[AccessCookieName(galleryId)], NatToString(galleryId))))
    ensures r.Ok? ==> galleryId in galleries && r.value == galleries[galleryId]
    ensures galleryId in galleries && !r.Ok? ==> r == HttpError(401, "Unauthorized")
  {
    if galleryId !in galleries then HttpError(404, "Gallery not found")
    else
      var gallery := galleries[galleryId];
      var name := AccessCookieName(galleryId);
      var allowed :=
        if caller.Some? && gallery.ownerId == caller.value then true
        else if gallery.isPublic then true
        else name in cookies && cookies[name] != "" && verify(cookies[name], NatToString(galleryId));
      if allowed then Ok(gallery) else HttpError(401, "Unauthorized")
  }

  // ------------------------------------------------------------ file names

  /** `str.rfind`: the index of the last `c` in `s`, or -1. */
  function RFind(s: string, c: char): (i: int)
    ensures -1 <= i < |s|
    ensures i >= 0 ==> s[i] == c
    ensures forall j :: i < j < |s| ==> s[j] != c
    decreases |s|
  {
    if s == [] then -1
    else if s[|s| - 1] == c then |s| - 1
    else RFind(s[..|s| - 1], c)
  }

  predicate AllDots(s: string) {
    forall k :: 0 <= k < |s| ==> s[k] == '.'
  }

  /**
   * `os.path.splitext` on POSIX paths: the extension runs from the last dot
   * of the last path component, unless everything in that component before
   * the dot is dots (a hidden file has no extension).
   */
  function SplitExt(p: string): (string, string) {
    var sep := RFind(p, '/');
    var dot := RFind(p, '.');
    if dot > sep && !AllDots(p[sep + 1..dot]) then (p[..dot], p[dot..]) else (p, "")
  }

  /**
   * The two parts put back together give the path, and an extension is
   * either empty or a dot followed by neither dots nor slashes.
   */
  lemma SplitExtSpec(p: string)
    ensures SplitExt(p).0 + SplitExt(p).1 == p
    ensures var ext := SplitExt(p).1;
            ext == "" || (ext[0] == '.' && forall k :: 1 <= k < |ext| ==> ext[k] != '.' && ext[k] != '/')
  {
    var sep := RFind(p, '/');
    var dot := RFind(p, '.');
    if dot > sep && !AllDots(p[sep + 1..dot]) {
      ExtensionChars(p, sep, dot);
    } else {
      assert p + "" == p;
    }
  }

  /** Past the last dot, which lies past the last slash, there is neither. */
  lemma ExtensionChars(p: string, sep: int, dot: int)
    requires sep == RFind(p, '/') && dot == RFind(p, '.') && sep < dot
    ensures p[..dot] + p[dot..] == p
    ensures p[dot..][0] == '.'
    ensures forall k :: 1 <= k < |p[dot..]| ==> p[dot..][k] != '.' && p[dot..][k] != '/'
  {
    forall k | 1 <= k < |p[dot..]| ensures p[dot..][k] != '.' && p[dot..][k] != '/' {
      assert p[dot..][k] == p[dot + k];
    }
  }

  lemma RFindAt(s: string, c: char, i: nat)
    requires i < |s| && s[i] == c
    requires forall j :: i < j < |s| ==> s[j] != c
    ensures RFind(s, c) == i
  {
  }

  lemma RFindNone(s: string, c: char)
    requires forall j :: 0 <= j < |s| ==> s[j] != c
    ensures RFind(s, c) == -1
  {
  }

  /** A few spellings and what `splitext` makes of them. */
  lemma SplitExtExamples()
    ensures SplitExt("IMG_1.JPG") == ("IMG_1", ".JPG")
    ensures SplitExt("a.tar.gz") == ("a.tar", ".gz")
    ensures SplitExt(".hidden") == (".hidden", "")
    ensures SplitExt("v1.d/raw") == ("v1.d/raw", "")
  {
    SplitExtUpperCase();
    SplitExtDoubleExtension();
    SplitExtHidden();
    SplitExtDotInDirectory();
  }

  lemma SplitExtHidden()
    ensures SplitExt(".hidden") == (".hidden", "")
  {
    RFindNone(".hidden", '/');
    RFindAt(".hidden", '.', 0);
  }

  lemma SplitExtUpperCase()
    ensures SplitExt("IMG_1.JPG") == ("IMG_1", ".JPG")
  {
    RFindNone("IMG_1.JPG", '/');
    RFindAt("IMG_1.JPG", '.', 5);
    assert !AllDots("IMG_1.JPG"[0..5]) by { assert "IMG_1.JPG"[0..5][0] == 'I'; }
    assert "IMG_1.JPG"[..5] == "IMG_1" && "IMG_1.JPG"[5..] == ".JPG";
  }

  lemma SplitExtDoubleExtension()
    ensures SplitExt("a.tar.gz") == ("a.tar", ".gz")
  {
    RFindNone("a.tar.gz", '/');
    RFindAt("a.tar.gz", '.', 5);
    assert !AllDots("a.tar.gz"[0..5]) by { assert "a.tar.gz"[0..5][0] == 'a'; }
    assert "a.tar.gz"[..5] == "a.tar" && "a.tar.gz"[5..] == ".gz";
  }

  lemma SplitExtDotInDirectory()
    ensures SplitExt("v1.d/raw") == ("v1.d/raw", "")
  {
    RFindAt("v1.d/raw", '/', 4);
    RFindAt("v1.d/raw", '.', 2);
  }

  const OriginalSize: string := "original"

  /** `photo.filename or f"photo-{photo.id}"`. */
  function DisplayName(p: Photo): string {
    if p.filename != "" then p.filename else "photo-" + NatToString(p.id)
  }

  /**
   * `_arcname_for_photo`: the display name without its extension, then for
   * the original the first non-empty of the lower-cased extension of the
   * cached file, `photo.ext`, the name's own extension and `.jpg`; for any
   * other size `-{size}.jpg`.
   */
  function ArcnameForPhoto(p: Photo, size: string, localPath: string): string {
    var (base, origExt) := SplitExt(DisplayName(p));
    if size == OriginalSize then
      var lpExt := Lower(SplitExt(localPath).1);
      var ext := if lpExt != "" then lpExt else if p.ext != "" then p.ext else if origExt != "" then origExt else ".jpg";
      base + ext
    else base + "-" + size + ".jpg"
  }

  /**
   * Every entry name starts with the display name's stem. A resized copy is
   * `{stem}-{size}.jpg`; an original keeps the cached file's extension,
   * lower-cased, when it has one, and with no other extension to go on it
   * is named exactly as uploaded (with `.jpg` added to a name that has no
   * extension).
   */
  lemma ArcnameProperties(p: Photo, size: string, localPath: string)
    ensures var stem := SplitExt(DisplayName(p)).0;
            var a := ArcnameForPhoto(p, size, localPath);
            |stem| < |a| && a[..|stem|] == stem
    ensures size != OriginalSize ==>
              ArcnameForPhoto(p, size, localPath) == SplitExt(DisplayName(p)).0 + "-" + size + ".jpg"
    ensures size == OriginalSize && SplitExt(localPath).1 != "" ==>
              ArcnameForPhoto(p, size, localPath) == SplitExt(DisplayName(p)).0 + Lower(SplitExt(localPath).1)
    ensures size == OriginalSize && SplitExt(localPath).1 == "" && p.ext == "" ==>
              ArcnameForPhoto(p, size, localPath)
              == if SplitExt(DisplayName(p)).1 != "" then DisplayName(p) else DisplayName(p) + ".jpg"
  {
    var stem := SplitExt(DisplayName(p)).0;
    var lpExt := Lower(SplitExt(localPath).1);
    assert SplitExt(localPath).1 != "" ==> lpExt != "";
    assert SplitExt(localPath).1 == "" ==> lpExt == "";
    if size == OriginalSize {
      SplitExtSpec(DisplayName(p));
      var ext := if lpExt != "" then lpExt else if p.ext != "" then p.ext else if SplitExt(DisplayName(p)).1 != "" then SplitExt(DisplayName(p)).1 else ".jpg";
      assert ArcnameForPhoto(p, size, localPath) == stem + ext;
      StemPrefix(stem, ext);
    } else {
      StemPrefix(stem, "-" + size + ".jpg");
      assert stem + ("-" + size + ".jpg") == stem + "-" + size + ".jpg";
    }
  }

  /** A non-empty suffix makes the stem a proper prefix. */
  lemma StemPrefix(stem: string, suffix: string)
    requires suffix != ""
    ensures |stem| < |stem + suffix| && (stem + suffix)[..|stem|] == stem
  {
  }

  // ------------------------------------------------------------ file list

  /** What `ensure_cached_download_for_photo` gives for a photo: a path (possibly empty), or an exception. */
  datatype Cached = CachedAt(path: string) | CacheRaised

  /** One zip entry: the local file and its name inside the archive. */
  datatype Entry = Entry(path: string, arcname: string)

  /** The cached file can go into the zip: a non-empty path that exists. */
  predicate Available(c: Cached, existing: set<string>) {
    c.CachedAt? && c.path != "" && c.path in existing
  }

  /** The entry a photo contributes, if any. */
  function PhotoEntries(p: Photo, size: string, cache: (Photo, string) -> Cached, existing: set<string>): seq<Entry> {
    var c := cache(p, size);
    if Available(c, existing) then [Entry(c.path, ArcnameForPhoto(p, size, c.path))] else []
  }

  /**
   * `prepare_gallery_file_list_by_size` over the photos `list_photos`
   * returned, in their order: photos whose cached file is missing or whose
   * caching raised are skipped.
   */
  function FileListBySize(photos: seq<Photo>, size: string, cache: (Photo, string) -> Cached, existing: set<string>): seq<Entry>
    decreases |photos|
  {
    if photos == [] then []
    else PhotoEntries(photos[0], size, cache, existing) + FileListBySize(photos[1..], size, cache, existing)
  }

  /** The list of two runs of photos is the list of the first then the list of the second: order is kept. */
  lemma {:induction false} FileListAppend(a: seq<Photo>, b: seq<Photo>, size: string, cache: (Photo, string) -> Cached, existing: set<string>)
    ensures FileListBySize(a + b, size, cache, existing) == FileListBySize(a, size, cache, existing) + FileListBySize(b, size, cache, existing)
    decreases |a|
  {
    if a == [] {
      assert a + b == b;
    } else {
      assert (a + b)[1..] == a[1..] + b;
      FileListAppend(a[1..], b, size, cache, existing);
    }
  }

  /**
   * Every entry comes from a photo of the list whose cached file exists
   * and is named after that photo; there are at most as many entries as
   * photos, and none at all exactly when no photo's file is available.
   */
  lemma {:induction false} FileListEntries(photos: seq<Photo>, size: string, cache: (Photo, string) -> Cached, existing: set<string>)
    ensures |FileListBySize(photos, size, cache, existing)| <= |photos|
    ensures forall e :: e in FileListBySize(photos, size, cache, existing) ==>
              e.path != "" && e.path in existing
              && exists k :: 0 <= k < |photos| && cache(photos[k], size) == CachedAt(e.path)
                             && e.arcname == ArcnameForPhoto(photos[k], size, e.path)
    ensures FileListBySize(photos, size, cache, existing) == [] <==>
              forall k :: 0 <= k < |photos| ==> !Available(cache(photos[k], size), existing)
    ensures |FileListBySize(photos, size, cache, existing)| == |AvailableAmong(photos, size, cache, existing, |photos|)|
    decreases |photos|
  {
    FileListCount(photos, size, cache, existing, |photos|);
    assert photos[..|photos|] == photos;
    if photos != [] {
      FileListEntries(photos[1..], size, cache, existing);
      var rest := FileListBySize(photos[1..], size, cache, existing);
      var here := PhotoEntries(photos[0], size, cache, existing);
      forall e: Entry | e in here + rest
        ensures exists k :: 0 <= k < |photos| && cache(photos[k], size) == CachedAt(e.path)
                            && e.arcname == ArcnameForPhoto(photos[k], size, e.path)
      {
        if e in here {
          assert cache(photos[0], size) == CachedAt(e.path);
        } else {
          var k :| 0 <= k < |photos[1..]| && cache(photos[1..][k], size) == CachedAt(e.path)
                   && e.arcname == ArcnameForPhoto(photos[1..][k], size, e.path);
          assert photos[k + 1] == photos[1..][k];
        }
      }
      if forall k :: 0 <= k < |photos| ==> !Available(cache(photos[k], size), existing) {
        assert forall k :: 0 <= k < |photos[1..]| ==> photos[1..][k] == photos[k + 1];
      } else if here == [] {
        var k :| 0 <= k < |photos| && Available(cache(photos[k], size), existing);
        assert k > 0;
        assert photos[1..][k - 1] == photos[k];
      }
    }
  }

  /** The positions among the first `n` photos whose cached file is available. */
  function AvailableAmong(photos: seq<Photo>, size: string, cache: (Photo, string) -> Cached,
                          existing: set<string>, n: nat): set<int>
    requires n <= |photos|
  {
    set k | 0 <= k < n && Available(cache(photos[k], size), existing)
  }

  lemma AvailableAmongStep(photos: seq<Photo>, size: string, cache: (Photo, string) -> Cached,
                           existing: set<string>, n: nat)
    requires 0 < n <= |photos|
    ensures |AvailableAmong(photos, size, cache, existing, n)|
            == |AvailableAmong(photos, size, cache, existing, n - 1)|
               + (if Available(cache(photos[n - 1], size), existing) then 1 else 0)
  {
    var before := AvailableAmong(photos, size, cache, existing, n - 1);
    var after := AvailableAmong(photos, size, cache, existing, n);
    if Available(cache(photos[n - 1], size), existing) {
      assert after == before + {n - 1};
      assert n - 1 !in before;
    } else {
      assert after == before;
    }
  }

  /** The first `n` photos give one entry for each of them whose cached file is available. */
  lemma {:induction false} FileListCount(photos: seq<Photo>, size: string, cache: (Photo, string) -> Cached,
                                         existing: set<string>, n: nat)
    requires n <= |photos|
    ensures |FileListBySize(photos[..n], size, cache, existing)| == |AvailableAmong(photos, size, cache, existing, n)|
    decreases n
  {
    if n == 0 {
      assert AvailableAmong(photos, size, cache, existing, 0) == {};
    } else {
      FileListCount(photos, size, cache, existing, n - 1);
      AvailableAmongStep(photos, size, cache, existing, n);
      var p := photos[n - 1];
      assert photos[..n] == photos[..n - 1] + [p];
      FileListAppend(photos[..n - 1], [p], size, cache, existing);
      assert FileListBySize([p], size, cache, existing) == PhotoEntries(p, size, cache, existing) by {
        assert [p][1..] == [];
      }
    }
  }

  /** `prepare_gallery_file_list_by_size`: the loop that appends one entry per available photo. */
  method PrepareGalleryFileListBySize(photos: seq<Photo>, size: string, cache: (Photo, string) -> Cached, existing: set<string>)
    returns (out: seq<Entry>)
    ensures out == FileListBySize(photos, size, cache, existing)
  {
    out := [];
    var i := 0;
    while i < |photos|
      invariant 0 <= i <= |photos|
      invariant out == FileListBySize(photos[..i], size, cache, existing)
    {
      var p := photos[i];
      var c := cache(p, size);
      FileListAppend(photos[..i], [p], size, cache, existing);
      assert photos[..i + 1] == photos[..i] + [p];
      assert FileListBySize([p], size, cache, existing) == PhotoEntries(p, size, cache, existing) + FileListBySize([], size, cache, existing);
      if c.CachedAt? && c.path != "" && c.path in existing {
        var arcname := ArcnameForPhoto(p, size, c.path);
        out := out + [Entry(c.path, arcname)];
      }
      i := i + 1;
    }
    assert photos[..i] == photos;
  }

  // ------------------------------------------------------------ the zip

  /** The entries `build_zip_file_on_disk` writes: those with a non-empty path that exists, in order. */
  function ZipEntries(fileList: seq<Entry>, existing: set<string>): (written: seq<Entry>)
    ensures |written| <= |fileList|
    ensures forall e :: e in written <==> e in fileList && e.path != "" && e.path in existing
    decreases |fileList|
  {
    if fileList == [] then []
    else
      var rest := ZipEntries(fileList[1..], existing);
      assert forall e :: e in fileList <==> e == fileList[0] || e in fileList[1..];
      var e := fileList[0];
      if e.path != "" && e.path in existing then [e] + rest else rest
  }

  /** A prepared list is zipped whole, as long as its files are still there. */
  lemma {:induction false} ZipOfPreparedList(photos: seq<Photo>, size: string, cache: (Photo, string) -> Cached, existing: set<string>)
    ensures ZipEntries(FileListBySize(photos, size, cache, existing), existing) == FileListBySize(photos, size, cache, existing)
    decreases |photos|
  {
    if photos != [] {
      ZipOfPreparedList(photos[1..], size, cache, existing);
      var here := PhotoEntries(photos[0], size, cache, existing);
      var rest := FileListBySize(photos[1..], size, cache, existing);
      if here != [] {
        assert (here + rest)[1..] == rest;
      } else {
        assert here + rest == rest;
      }
    }
  }

  /** Writing one more listed file after the others appends it when it exists. */
  lemma {:induction false} ZipEntriesSnoc(fileList: seq<Entry>, e: Entry, existing: set<string>)
    ensures ZipEntries(fileList + [e], existing)
            == ZipEntries(fileList, existing) + (if e.path != "" && e.path in existing then [e] else [])
    decreases |fileList|
  {
    if fileList == [] {
      assert [e][1..] == [];
    } else {
      assert (fileList + [e])[1..] == fileList[1..] + [e];
      ZipEntriesSnoc(fileList[1..], e, existing);
    }
  }

  /** `build_zip_file_on_disk`: the loop writing each listed file that exists, front to back. */
  method BuildZipFileOnDisk(fileList: seq<Entry>, existing: set<string>) returns (written: seq<Entry>)
    ensures written == ZipEntries(fileList, existing)
  {
    written := [];
    var i := 0;
    while i < |fileList|
      invariant 0 <= i <= |fileList|
      invariant written == ZipEntries(fileList[..i], existing)
    {
      var e := fileList[i];
      assert fileList[..i + 1] == fileList[..i] + [e];
      ZipEntriesSnoc(fileList[..i], e, existing);
      if e.path != "" && e.path in existing {
        written := written + [e];
      }
      i := i + 1;
    }
    assert fileList[..i] == fileList;
  }

  /**
   * `download_gallery_disk`: the access check first, then 404 for an empty
   * file list, then the zip of the listed files.
   */
  method DownloadGalleryDisk(db: Db, galleryId: nat, cookies: map<string, string>, caller: Option<nat>,
                             verify: (string, string) -> bool, fileList: seq<Entry>, existing: set<string>)
    returns (r: Result<seq<Entry>>)
    ensures var access := CheckGalleryAccess(db.galleries, galleryId, cookies, caller, verify);
            !access.Ok? ==> r == HttpError(access.code, access.detail)
    ensures CheckGalleryAccess(db.galleries, galleryId, cookies, caller, verify).Ok? && fileList == [] ==>
              r == HttpError(404, "No available files to download")
    ensures r.Ok? <==> CheckGalleryAccess(db.galleries, galleryId, cookies, caller, verify).Ok? && fileList != []
    ensures r.Ok? ==> r.value == ZipEntries(fileList, existing)
  {
    var access := CheckGalleryAccess(db.galleries, galleryId, cookies, caller, verify);
    if !access.Ok? {
      return HttpError(access.code, access.detail);
    }
    if fileList == [] {
      return HttpError(404, "No available files to download");
    }
    var written := BuildZipFileOnDisk(fileList, existing);
    r := Ok(written);
  }
}
