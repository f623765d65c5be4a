/** The image helper of the pet form: it accepts or rejects a chosen file,
    names the object it stores in the `pet-images` bucket, and recovers that
    object's path from the public URL when the image is removed. Calls to the
    auth and storage services are recorded as requests; their answers are
    parameters. */
module ImageUpload {
  import opened Strings
  import opened Optional

  /** The storage bucket that holds pet images. */
  const Bucket := "pet-images"

  /** The largest accepted file: 5 MiB. */
  const MaxImageBytes: nat := 5 * 1024 * 1024

  /** The parts of a browser `File` the helper looks at. */
  datatype ImageFile = ImageFile(name: string, mimeType: string, size: nat)

  datatype FileCheck = Accepted | NotAnImage | TooLarge

  /** The two checks made before any service is contacted: the content type
      must start with `image/`, then the size must not exceed 5 MiB. */
  function CheckFile(file: ImageFile): (r: FileCheck)
    ensures r == Accepted <==> StartsWith(file.mimeType, "image/") && file.size <= MaxImageBytes
    ensures r == NotAnImage <==> !StartsWith(file.mimeType, "image/")
  {
    if !StartsWith(file.mimeType, "image/") then NotAnImage
    else if file.size > MaxImageBytes then TooLarge
    else Accepted
  }

  /** The cap is inclusive: an image of exactly 5 MiB passes, one byte more
      does not, whatever its name. */
  lemma SizeCapIsInclusive(name: string, mimeType: string)
    requires StartsWith(mimeType, "image/")
    ensures MaxImageBytes == 5242880
    ensures CheckFile(ImageFile(name, mimeType, MaxImageBytes)) == Accepted
    ensures CheckFile(ImageFile(name, mimeType, MaxImageBytes + 1)) == TooLarge
  {
  }

  /** `name.split('.').pop()`: the text after the last `.`, or the whole name
      when it has none. */
  function FileExtension(name: string): (ext: string)
    ensures '.' !in ext
    ensures |ext| <= |name| && name[|name| - |ext|..] == ext
    ensures '.' !in name ==> ext == name
    ensures '.' in name ==> |ext| < |name| && name[|name| - |ext| - 1] == '.'
  {
    LastPartIsSuffix(name, '.');
    Last(Split(name, '.'))
  }

  /** Whatever precedes the last `.`, the extension is what follows it. */
  lemma ExtensionAfterLastDot(stem: string, ext: string)
    requires '.' !in ext
    ensures FileExtension(stem + "." + ext) == ext
  {
    SplitAcross(stem, '.', ext);
    SplitWithoutSeparator(ext, '.');
  }

  /** `${userId}/${Date.now()}.${fileExt}`: the object name an upload uses.
      It lies in the user's folder and ends with `.` and the extension. */
  function StorageFileName(userId: string, nowMillis: nat, ext: string): (r: string)
    ensures |userId| + |ext| + 2 < |r|
    ensures r[..|userId| + 1] == userId + "/"
    ensures r[|r| - |ext| - 1..] == "." + ext
  {
    userId + "/" + NatToString(nowMillis) + "." + ext
  }

  /** The stored object sits in the user's folder under a name made of the
      upload time and the original file's extension, which it keeps. */
  lemma StorageFileNameLayout(userId: string, nowMillis: nat, name: string)
    requires '/' !in userId && '/' !in name
    ensures var f := StorageFileName(userId, nowMillis, FileExtension(name));
      && Split(f, '/') == [userId, NatToString(nowMillis) + "." + FileExtension(name)]
      && FileExtension(f) == FileExtension(name)
  {
    var ext := FileExtension(name);
    var leaf := NatToString(nowMillis) + "." + ext;
    assert '/' !in ext by {
      assert forall i :: 0 <= i < |ext| ==> ext[i] == name[|name| - |ext| + i];
    }
    assert '/' !in leaf;
    assert StorageFileName(userId, nowMillis, ext) == userId + ['/'] + leaf;
    SplitAcross(userId, '/', leaf);
    SplitWithoutSeparator(userId, '/');
    SplitWithoutSeparator(leaf, '/');
    assert StorageFileName(userId, nowMillis, ext) == (userId + "/" + NatToString(nowMillis)) + "." + ext;
    ExtensionAfterLastDot(userId + "/" + NatToString(nowMillis), ext);
  }

  /** `parts.findIndex(part => part === x)`: the first index holding `x`, or
      -1 when there is none. */
  function FindIndex(parts: seq<string>, x: string): (i: int)
    ensures -1 <= i < |parts|
    ensures i == -1 <==> x !in parts
    ensures i >= 0 ==> parts[i] == x && x !in parts[..i]
    decreases |parts|
  {
    if |parts| == 0 then -1
    else if parts[0] == x then 0
    else
      var j := FindIndex(parts[1..], x);
      assert parts == [parts[0]] + parts[1..];
      if j == -1 then -1
      else
        assert parts[..j + 1] == [parts[0]] + parts[1..][..j];
        j + 1
  }

  /** The path `handleRemove` asks storage to delete: the URL's `/`-segments
      after the first `pet-images` segment, joined by `/`; none when no
      segment is `pet-images`. */
  function StoragePathFromUrl(url: string): (r: Option<string>)
    ensures r.None? <==> Bucket !in Split(url, '/')
  {
    var parts := Split(url, '/');
    var i := FindIndex(parts, Bucket);
    if i == -1 then None else Some(Join(parts[i + 1..], '/'))
  }

  /** Only the first `pet-images` segment counts: the path is everything
      after it. */
  lemma PathAfterFirstBucket(url: string, prefix: seq<string>, rest: seq<string>)
    requires Split(url, '/') == prefix + [Bucket] + rest
    requires Bucket !in prefix
    ensures StoragePathFromUrl(url) == Some(Join(rest, '/'))
  {
    var parts := Split(url, '/');
    var i := FindIndex(parts, Bucket);
    assert parts[|prefix|] == Bucket;
    assert parts[i + 1..] == rest;
  }

  /** An object stored under `path` and served from a URL that has
      `/pet-images/` just before the path, with no earlier `pet-images`
      segment, is the object removal deletes. */
  lemma RemovalFindsStoredObject(base: string, path: string)
    requires Bucket !in Split(base, '/')
    ensures StoragePathFromUrl(base + "/" + Bucket + "/" + path) == Some(path)
  {
    var tail := Bucket + ['/'] + path;
    var prefix, rest := Split(base, '/'), Split(path, '/');
    BucketThenPath(path);
    SplitAcross(base, '/', tail);
    assert base + "/" + Bucket + "/" + path == base + ['/'] + tail;
    PathAfterFirstBucket(base + ['/'] + tail, prefix, rest);
    JoinSplit(path, '/');
  }

  lemma BucketThenPath(path: string)
    ensures Split(Bucket + ['/'] + path, '/') == [Bucket] + Split(path, '/')
  {
    SplitAcross(Bucket, '/', path);
    SplitWithoutSeparator(Bucket, '/');
  }

  /** A request the helper makes to the auth or storage service. */
  datatype Request = GetUser | Upload(path: string) | GetPublicUrl(path: string) | Remove(path: string)

  /** The storage service's answer to an upload: the stored path or an error. */
  datatype UploadReply = Stored(path: string) | UploadFailed(message: string)

  /** The storage service's answer to a removal. */
  datatype RemoveReply = RemoveOk | RemoveFailed(message: string)

  /** How `handleFileSelect` ended. A missing file ends silently, a rejected
      one with the message of the check it failed; a missing user and an upload
      error end in the same failure notice. */
  datatype SelectResult =
    | NoFile
    | Rejected(reason: FileCheck)
    | NotAuthenticated
    | UploadError(message: string)
    | Uploaded(url: string)

  /** How `handleRemove` ended. */
  datatype RemoveResult = NothingToRemove | RemoveError(message: string) | ImageRemoved

  /** `handleFileSelect` gets past its two checks: a file was chosen and
      `CheckFile` accepts it. */
  predicate PassesChecks(file: Option<ImageFile>) {
    file.Some? && CheckFile(file.value) == Accepted
  }

  /** The requests `handleFileSelect` makes, in order: none for a missing or
      rejected file; then `getUser`; with a user, the upload of
      `<userId>/<millis>.<ext>`; after a stored upload, its public URL. */
  function SelectRequests(file: Option<ImageFile>, user: Option<string>, nowMillis: nat,
                          upload: UploadReply): (rs: seq<Request>)
    ensures !PassesChecks(file) <==> rs == []
    ensures PassesChecks(file) ==> rs[0] == GetUser && (user.None? <==> |rs| == 1)
    ensures PassesChecks(file) && user.Some? ==>
      && |rs| >= 2
      && rs[1] == Upload(StorageFileName(user.value, nowMillis, FileExtension(file.value.name)))
      && |rs| == (if upload.Stored? then 3 else 2)
      && (upload.Stored? ==> rs[2] == GetPublicUrl(upload.path))
  {
    if !PassesChecks(file) then []
    else if user.None? then [GetUser]
    else
      var name := StorageFileName(user.value, nowMillis, FileExtension(file.value.name));
      if upload.Stored? then [GetUser, Upload(name), GetPublicUrl(upload.path)]
      else [GetUser, Upload(name)]
  }

  /** How `handleFileSelect` ends: the image is uploaded, and its public URL
      reported, exactly when the file passes the checks, there is a user and
      storage keeps the upload. */
  function SelectOutcome(file: Option<ImageFile>, user: Option<string>, upload: UploadReply,
                         publicUrl: string): (r: SelectResult)
    ensures r.Uploaded? <==> PassesChecks(file) && user.Some? && upload.Stored?
    ensures r.Uploaded? ==> r.url == publicUrl
    ensures r == NoFile <==> file.None?
    ensures r.Rejected? <==> file.Some? && CheckFile(file.value) != Accepted
    ensures r.Rejected? ==> r.reason == CheckFile(file.value) && r.reason != Accepted
    ensures r == NotAuthenticated <==> PassesChecks(file) && user.None?
  {
    if file.None? then NoFile
    else if CheckFile(file.value) != Accepted then Rejected(CheckFile(file.value))
    else if user.None? then NotAuthenticated
    else if upload.UploadFailed? then UploadError(upload.message)
    else Uploaded(publicUrl)
  }

  /** The component's state: the `value` prop its parent currently passes, its
      `uploading` and `preview` state, the file input's value, and what it has
      asked of the services and reported to its parent through `onChange` and
      `onRemove`. */
  class Uploader {
    var value: Option<string>
    var uploading: bool
    var preview: Option<string>
    var inputValue: string
    var requests: seq<Request>
    var changes: seq<string>
    var removals: nat

    constructor (value: Option<string>)
      ensures this.value == value && preview == value && !uploading && inputValue == ""
      ensures requests == [] && changes == [] && removals == 0
    {
      this.value := value;
      uploading := false;
      preview := value;
      inputValue := "";
      requests := [];
      changes := [];
      removals := 0;
    }

    /** The parent re-renders the component with a new `value` prop, as it
        does after `onChange` or `onRemove`. The preview is state initialised
        from the first `value` only, so it does not follow. */
    method SetValue(v: Option<string>)
      modifies this
      ensures value == v
      ensures preview == old(preview) && uploading == old(uploading) && inputValue == old(inputValue)
      ensures requests == old(requests) && changes == old(changes) && removals == old(removals)
    {
      value := v;
    }

    /** `handleFileSelect`: `user` is what `getUser` answers, `nowMillis` is
        `Date.now()`, `upload` is the storage answer and `publicUrl` what
        `getPublicUrl` gives for the stored path. */
    method HandleFileSelect(file: Option<ImageFile>, user: Option<string>, nowMillis: nat,
                            upload: UploadReply, publicUrl: string)
      returns (result: SelectResult)
      modifies this
      ensures result == SelectOutcome(file, user, upload, publicUrl)
      ensures requests == old(requests) + SelectRequests(file, user, nowMillis, upload)
      ensures !PassesChecks(file) ==> unchanged(this)
      ensures PassesChecks(file) ==> !uploading && inputValue == ""
      ensures changes == old(changes) + (if result.Uploaded? then [publicUrl] else [])
      ensures preview == (if result.Uploaded? then Some(publicUrl) else old(preview))
      ensures removals == old(removals) && value == old(value)
    {
      if file.None? {
        return NoFile;
      }
      var f := file.value;
      var check := CheckFile(f);
      if check != Accepted {
        return Rejected(check);
      }
      uploading := true;
      var sent: seq<Request>;
      if user.None? {
        sent := [GetUser];
        result := NotAuthenticated;
      } else {
        var fileName := StorageFileName(user.value, nowMillis, FileExtension(f.name));
        match upload {
          case UploadFailed(message) =>
            sent := [GetUser, Upload(fileName)];
            result := UploadError(message);
          case Stored(path) =>
            sent := [GetUser, Upload(fileName), GetPublicUrl(path)];
            preview := Some(publicUrl);
            changes := changes + [publicUrl];
            result := Uploaded(publicUrl);
        }
      }
      requests := requests + sent;
      uploading := false;
      inputValue := "";
    }

    /** `handleRemove`: `reply` is the storage answer to the removal, if one
        is requested. */
    method HandleRemove(reply: RemoveReply) returns (result: RemoveResult)
      modifies this
      ensures value.None? || value == Some("") ==> result == NothingToRemove && unchanged(this)
      ensures value.Some? && value.value != "" ==>
        var path := StoragePathFromUrl(value.value);
        && requests == old(requests) + (if path.Some? then [Remove(path.value)] else [])
        && result == (if path.Some? && reply.RemoveFailed? then RemoveError(reply.message)
                      else ImageRemoved)
      ensures preview == (if result.ImageRemoved? then None else old(preview))
      ensures removals == old(removals) + (if result.ImageRemoved? then 1 else 0)
      ensures changes == old(changes) && uploading == old(uploading) && inputValue == old(inputValue)
      ensures value == old(value)
    {
      if value.None? || value.value == "" {
        return NothingToRemove;
      }
      var path := StoragePathFromUrl(value.value);
      if path.Some? {
        requests := requests + [Remove(path.value)];
        if reply.RemoveFailed? {
          return RemoveError(reply.message);
        }
      }
      preview := None;
      removals := removals + 1;
      result := ImageRemoved;
    }
  }
}
