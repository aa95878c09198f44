/** The cover-image upload of a workspace page header: the file checks made in the
    browser before anything is uploaded, and the header's `coverImage` and
    `isLoading` state around the upload. */
module CoverUpload {
  import opened Wrappers
  import opened Seqs
  import opened Strings
  import Files

  /** `MAX_FILE_SIZE`: 5 MiB in bytes. */
  const MaxFileSize: int := 5 * 1024 * 1024

  /** The browser's `ALLOWED_FILE_TYPES`. */
  const ClientAllowedTypes: seq<string> := ["image/jpeg", "image/png", "image/webp", "image/gif", "image/svg+xml"]

  /** `type.split("/")[1]`: the text between the first "/" and the next one (or the
      end). A type without "/" gives `undefined`, which `join` prints as "". */
  function Subtype(t: string): (r: string)
    ensures '/' !in t ==> r == ""
    ensures '/' in t ==>
              var k := IndexOf(t, '/').value + 1;
              k + |r| <= |t| && t[k..k + |r|] == r && '/' !in r &&
              (k + |r| == |t| || t[k + |r|] == '/')
  {
    var parts := Split(t, '/');
    SplitFirst(t, '/');
    if |parts| > 1 then
      var k := IndexOf(t, '/').value + 1;
      SplitFirst(t[k..], '/');
      parts[1]
    else ""
  }

  /** The subtype of a type `image/x` is `x`. */
  lemma SubtypeOfImage(x: string)
    requires '/' !in x
    ensures Subtype("image/" + x) == x
  {
    var t := "image/" + x;
    assert t[..5] == "image" && t[5] == '/';
    IndexOfAt(t, '/', 5);
    assert t[6..] == x;
    SplitFirst(x, '/');
  }

  /** Each allowed type's subtype is what follows "image/". */
  lemma ClientSubtype(i: nat)
    requires i < |ClientAllowedTypes|
    ensures Subtype(ClientAllowedTypes[i]) == ClientAllowedTypes[i][6..]
  {
    var x := ["jpeg", "png", "webp", "gif", "svg+xml"][i];
    assert ClientAllowedTypes[i] == "image/" + x;
    assert '/' !in x;
    SubtypeOfImage(x);
  }

  /** The alert for an oversized file: the limit printed in MB. */
  const SizeError: string := "File size must be less than " + NatToString(MaxFileSize / (1024 * 1024)) + "MB"

  /** The alert for a file of a type outside the list. */
  const TypeError: string := "Invalid file type. Allowed types: " + JoinWith(Map(ClientAllowedTypes, Subtype), ", ")

  /** The alert when the upload fails with something that is not an `Error`. */
  const UploadFailed: string := "Failed to update cover"

  lemma SizeErrorText()
    ensures SizeError == "File size must be less than 5MB"
  {
    assert MaxFileSize / (1024 * 1024) == 5;
    assert NatToString(5) == "5";
  }

  /** A message listing the subtypes of `types` names the subtype of each. */
  lemma ListNamesSubtypes(prefix: string, types: seq<string>, i: nat)
    requires i < |types|
    ensures Contains(prefix + JoinWith(Map(types, Subtype), ", "), Subtype(types[i]))
  {
    var subs := Map(types, Subtype);
    JoinWithContains(subs, ", ", i);
    ContainsInSuffix(prefix, JoinWith(subs, ", "), subs[i]);
  }

  /** The type error names the subtype of every allowed type. */
  lemma TypeErrorNamesAll(i: nat)
    requires i < |ClientAllowedTypes|
    ensures Contains(TypeError, Subtype(ClientAllowedTypes[i]))
  {
    ListNamesSubtypes("Invalid file type. Allowed types: ", ClientAllowedTypes, i);
  }

  /** The browser accepts exactly the types the server accepts. */
  lemma ClientListIsServerList()
    ensures ClientAllowedTypes == Files.AllowedFileTypes
  {
  }

  /** The facts of the chosen file that the checks read. */
  datatype FileInfo = FileInfo(size: int, fileType: string)

  /** The checks of `handleCoverChange`, size first: the alert to show, or none for
      a file that may be uploaded. */
  function FileProblem(f: FileInfo): (r: Option<string>)
    ensures r.None? <==> f.size <= MaxFileSize && f.fileType in ClientAllowedTypes
    ensures f.size > MaxFileSize ==> r == Some(SizeError)
    ensures f.size <= MaxFileSize && f.fileType !in ClientAllowedTypes ==> r == Some(TypeError)
  {
    if f.size > MaxFileSize then Some(SizeError)
    else if f.fileType !in ClientAllowedTypes then Some(TypeError)
    else None
  }

  /** A file of exactly 5 MiB passes the size check; one byte more fails it, even
      when its type is also wrong. */
  lemma SizeBoundary()
    ensures FileProblem(FileInfo(5242880, "image/png")).None?
    ensures FileProblem(FileInfo(5242881, "text/plain")) == Some(SizeError)
  {
  }

  /** A file the browser accepts passes the server's type check too. */
  lemma AcceptedFilePassesServer(f: FileInfo, user: string, uploadUrl: string)
    requires FileProblem(f).None?
    ensures Files.GenerateUploadUrl(Some(user), f.fileType, uploadUrl) == Ok(uploadUrl)
  {
    ClientListIsServerList();
  }

  /** The default of the `defaultCoverImage` prop, used when the caller gives none. */
  const DefaultCoverImage: string :=
    "https://images.unsplash.com/photo-1497032628192-86f99bcd76bc?q=80&w=1200&h=400&auto=format&fit=crop"

  /** The cover part of the header state. */
  class CoverHeader {
    var coverImage: Option<string>
    var isLoading: bool

    /** The header starts with the given cover, or with the default one when the
        prop is undefined. */
    constructor (defaultCoverImage: Option<string>)
      ensures coverImage == Some(defaultCoverImage.GetOr(DefaultCoverImage)) && !isLoading
    {
      coverImage := Some(defaultCoverImage.GetOr(DefaultCoverImage));
      isLoading := false;
    }

    /** `handleCoverChange`. `outcome` is what the upload chain (upload URL, POST,
        `saveStorageId`) gives: the new image URL, or the thrown error's message if
        it was an `Error`. Returns the alert shown, if any. */
    method HandleCoverChange(hasPageId: bool, file: Option<FileInfo>, outcome: Result<string, Option<string>>)
      returns (alert: Option<string>)
      modifies this
      ensures !hasPageId || file.None? ==>
                alert.None? && coverImage == old(coverImage) && isLoading == old(isLoading)
      ensures hasPageId && file.Some? && FileProblem(file.value).Some? ==>
                alert == FileProblem(file.value) && coverImage == old(coverImage) && isLoading == old(isLoading)
      ensures hasPageId && file.Some? && FileProblem(file.value).None? ==> !isLoading
      ensures hasPageId && file.Some? && FileProblem(file.value).None? && outcome.Ok? ==>
                alert.None? && coverImage == Some(outcome.value)
      ensures hasPageId && file.Some? && FileProblem(file.value).None? && outcome.Err? ==>
                alert == Some(outcome.error.GetOr(UploadFailed)) && coverImage == old(coverImage)
    {
      alert := None;
      if !hasPageId || file.None? {
        return;
      }
      var problem := FileProblem(file.value);
      if problem.Some? {
        alert := problem;
        return;
      }
      isLoading := true;
      match outcome {
        case Ok(url) =>
          coverImage := Some(url);
        case Err(message) =>
          alert := Some(message.GetOr(UploadFailed));
      }
      isLoading := false;
    }
  }
}
