/** The upload mutations: `generateUploadUrl` admits only image types, and
    `saveStorageId` puts the stored file's URL on a page as its cover. */
module Files {
  import opened Wrappers
  import opened Strings
  import opened ConvexDb

  /** `ALLOWED_FILE_TYPES`. */
  const AllowedFileTypes: seq<string> := ["image/jpeg", "image/png", "image/webp", "image/gif", "image/svg+xml"]

  /** The message for a content type outside the list. */
  const InvalidTypeError: string := "Invalid file type. Allowed types: " + JoinWith(AllowedFileTypes, ", ")

  /** The message when storage has no URL for the upload. */
  const UrlMissingError: string := "Failed to get URL for uploaded file"

  /** The type error names every allowed type in full. */
  lemma InvalidTypeErrorNamesAll(i: nat)
    requires i < |AllowedFileTypes|
    ensures Contains(InvalidTypeError, AllowedFileTypes[i])
  {
    JoinWithContains(AllowedFileTypes, ", ", i);
    ContainsInSuffix("Invalid file type. Allowed types: ", JoinWith(AllowedFileTypes, ", "), AllowedFileTypes[i]);
  }

  /** Every admitted content type is an image type. */
  lemma AllowedAreImages(contentType: string)
    requires contentType in AllowedFileTypes
    ensures StartsWith(contentType, "image/")
  {
  }

  /** `generateUploadUrl`: "Unauthorized" without an identity, whatever the type;
      the type error unless the content type is exactly one of the list; otherwise
      the upload URL storage hands out (`uploadUrl`). */
  function GenerateUploadUrl(identity: Option<string>, contentType: string, uploadUrl: string): (r: Result<string, string>)
    ensures identity.None? ==> r == Err(Unauthorized)
    ensures identity.Some? && contentType !in AllowedFileTypes ==> r == Err(InvalidTypeError)
    ensures r.Ok? <==> identity.Some? && contentType in AllowedFileTypes
    ensures r.Ok? ==> r.value == uploadUrl
  {
    if identity.None? then Err(Unauthorized)
    else if contentType !in AllowedFileTypes then Err(InvalidTypeError)
    else Ok(uploadUrl)
  }

  /** A type that differs from a listed one only in letter case is refused. */
  lemma UpperCaseTypeRefused(uploadUrl: string)
    ensures GenerateUploadUrl(Some("u"), "image/PNG", uploadUrl) == Err(InvalidTypeError)
  {
    assert "image/PNG" != "image/png" by {
      assert "image/PNG"[6] != "image/png"[6];
    }
  }

  /** The patched page carries the new cover and update time; its other fields and
      every other page are unchanged. */
  lemma SetCoverGet(pages: seq<Doc<PageFields>>, id: Id, url: string, now: int, other: Id)
    requires UniqueIds(pages) && id in Ids(pages)
    ensures Get(SetCover(pages, id, url, now), id) ==
            Some(Doc(id, Get(pages, id).value.fields.(coverImage := Some(url), updatedAt := now)))
    ensures other != id ==> Get(SetCover(pages, id, url, now), other) == Get(pages, other)
  {
    SetCoverPatched(pages, id, url, now);
    if other != id {
      SetCoverOther(pages, id, url, now, other);
    }
  }

  /** Helper for `SetCoverGet`: the page with the id as patched. */
  lemma SetCoverPatched(pages: seq<Doc<PageFields>>, id: Id, url: string, now: int)
    requires UniqueIds(pages) && id in Ids(pages)
    ensures Get(SetCover(pages, id, url, now), id) ==
            Some(Doc(id, Get(pages, id).value.fields.(coverImage := Some(url), updatedAt := now)))
  {
    var r := SetCover(pages, id, url, now);
    var k :| 0 <= k < |pages| && pages[k].id == id;
    GetAt(pages, k);
    SameIdsUnique(pages, r);
    GetAt(r, k);
  }

  /** Helper for `SetCoverGet`: a page with another id as it was. */
  lemma SetCoverOther(pages: seq<Doc<PageFields>>, id: Id, url: string, now: int, other: Id)
    requires UniqueIds(pages) && other != id
    ensures Get(SetCover(pages, id, url, now), other) == Get(pages, other)
  {
    var r := SetCover(pages, id, url, now);
    if other in Ids(pages) {
      var j :| 0 <= j < |pages| && pages[j].id == other;
      GetAt(pages, j);
      SameIdsUnique(pages, r);
      GetAt(r, j);
    } else {
      assert forall j :: 0 <= j < |r| ==> r[j].id != other;
    }
  }

  /** `if (!url)` rejects both `null` and the empty string. */
  predicate HasUrl(url: Option<string>) {
    url.Some? && url.value != ""
  }

  /** `saveStorageId`: "Unauthorized" without an identity; the URL error when
      storage gives no URL, or an empty one, for the upload; the patch error, with
      nothing changed, when no page has the id; otherwise the page's cover becomes the URL, its
      `updatedAt` becomes `now`, and the URL is returned. */
  method SaveStorageId(db: Database, identity: Option<string>, storageUrl: Option<string>, pageId: Id, now: int)
    returns (r: Result<string, string>)
    requires db.Valid()
    modifies db
    ensures db.Valid()
    ensures identity.None? ==> r == Err(Unauthorized)
    ensures identity.Some? && !HasUrl(storageUrl) ==> r == Err(UrlMissingError)
    ensures identity.Some? && HasUrl(storageUrl) && pageId !in Ids(old(db.pages)) ==> r == Err(MissingDocument)
    ensures r.Ok? <==> identity.Some? && HasUrl(storageUrl) && pageId in Ids(old(db.pages))
    ensures r.Ok? ==> r.value == storageUrl.value && db.pages == SetCover(old(db.pages), pageId, r.value, now)
    ensures r.Err? ==> db.pages == old(db.pages)
    ensures db.pageVisits == old(db.pageVisits) && db.calendars == old(db.calendars) && db.events == old(db.events)
    ensures db.nextId == old(db.nextId)
  {
    if identity.None? {
      return Err(Unauthorized);
    }
    if !HasUrl(storageUrl) {
      return Err(UrlMissingError);
    }
    var url := storageUrl.value;
    var ok := db.PatchPageCover(pageId, url, now);
    if !ok {
      return Err(MissingDocument);
    }
    r := Ok(url);
  }
}
