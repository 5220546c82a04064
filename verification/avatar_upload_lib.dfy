/**
 * The avatar pipeline (lib/utils/avatar-upload.ts): the square-crop geometry
 * and the no-blob fallback of `compressImage`, and the ordered storage and
 * profile steps of `uploadAvatar` and `deleteAvatar` over an in-memory
 * "avatars" bucket (key to stored file) and "profiles" table (id to row).
 * Every external call's failure is an input: `StorageFaults` says which of the
 * three calls of one request fails.
 */
module AvatarUploadLib {
  import opened Wrappers
  import opened Text

  /** The pixels of a file: an uploaded original, or a canvas drawing of a crop window scaled to `edge` x `edge`. */
  datatype Pixels = Original(id: nat) | Drawn(source: Pixels, crop: Crop, edge: nat)

  /** A square crop window. Its offsets may be half pixels, so they are kept doubled. */
  datatype Crop = Crop(side: nat, twiceOffsetX: nat, twiceOffsetY: nat)

  /** A browser `File`; `width` and `height` are the dimensions of the decoded image. */
  datatype File = File(name: string, mimeType: string, size: nat, width: nat, height: nat, pixels: Pixels)

  /** The blob `canvas.toBlob` hands to its callback when it hands one. */
  datatype Blob = Blob(size: nat)

  datatype ProfileRow = ProfileRow(fullName: Option<string>, avatarUrl: Option<string>, avatarUpdatedAt: Option<string>)

  /** The two stores the pipeline touches: the "avatars" bucket and the "profiles" table. */
  datatype Backend = Backend(bucket: map<string, File>, profiles: map<string, ProfileRow>)

  /** Which external call of one request fails; the storage error carries its message. */
  datatype StorageFaults = StorageFaults(removeFails: bool, uploadError: Option<string>, updateFails: bool)

  /** `AvatarUploadResult`: success flag, public URL on success, message on failure. */
  datatype AvatarUploadResult = AvatarUploadResult(success: bool, url: Option<string>, error: Option<string>)

  const DefaultEdge: nat := 200
  const JpegType: string := "image/jpeg"
  const ImageTypePrefix: string := "image/"
  const MaxAvatarBytes: nat := 2 * 1024 * 1024
  const InvalidTypeMessage: string := "Please upload only image files."
  const TooLargeMessage: string := "Please upload images smaller than 2MB."
  const ProfileUpdateMessage: string := "Failed to update profile"
  const PublicObjectPath: string := "/storage/v1/object/public/avatars/"

  function Failed(message: string): AvatarUploadResult {
    AvatarUploadResult(false, None, Some(message))
  }

  function Succeeded(url: string): AvatarUploadResult {
    AvatarUploadResult(true, Some(url), None)
  }

  /**
   * The crop `compressImage` draws from: the largest centred square of a
   * `width` x `height` image. It lies inside the image, touches two opposite
   * edges, and leaves equal margins on either side along both axes.
   */
  function CenteredCrop(width: nat, height: nat): (c: Crop)
    ensures c.side <= width && c.side <= height
    ensures c.side == width || c.side == height
    ensures c.twiceOffsetX == 0 || c.twiceOffsetY == 0
    ensures c.twiceOffsetX + 2 * c.side <= 2 * width
    ensures c.twiceOffsetY + 2 * c.side <= 2 * height
    ensures c.twiceOffsetX == 2 * width - (c.twiceOffsetX + 2 * c.side)
    ensures c.twiceOffsetY == 2 * height - (c.twiceOffsetY + 2 * c.side)
  {
    var side := if width <= height then width else height;
    Crop(side, width - side, height - side)
  }

  /**
   * `compressImage(file, maxWidth)`: when the encoder yields a blob, a
   * `maxWidth` x `maxWidth` JPEG drawn from the centred crop, under the
   * original name; when it yields none, the original file itself.
   */
  function CompressImage(file: File, maxWidth: nat, blob: Option<Blob>): (r: File)
    ensures r.name == file.name
    ensures blob.Some? ==> r.width == maxWidth && r.height == maxWidth && r.mimeType == JpegType
    ensures blob.Some? ==> r.size == blob.value.size
    ensures blob.Some? ==> r.pixels == Drawn(file.pixels, CenteredCrop(file.width, file.height), maxWidth)
    ensures blob.None? ==> r == file
  {
    match blob
    case Some(b) =>
      File(file.name, JpegType, b.size, maxWidth, maxWidth, Drawn(file.pixels, CenteredCrop(file.width, file.height), maxWidth))
    case None => file
  }

  /** The single storage slot of a user: `${userId}/avatar.jpg`. */
  function AvatarKey(userId: string): (k: string)
    ensures |k| == |userId| + |"/avatar.jpg"|
    ensures k[..|userId| + 1] == userId + "/"
    ensures k[|userId| + 1..] == "avatar.jpg"
  {
    userId + "/avatar.jpg"
  }

  /** Different users never share a slot, and each slot sits under its user's prefix. */
  lemma AvatarKeyInjective(u: string, v: string)
    ensures StartsWith(AvatarKey(u), u + "/")
    ensures AvatarKey(u) == AvatarKey(v) ==> u == v
  {
    if AvatarKey(u) == AvatarKey(v) {
      assert |u| == |v|;
      assert u == AvatarKey(u)[..|u|];
      assert v == AvatarKey(v)[..|v|];
    }
    assert AvatarKey(u)[..|u + "/"|] == u + "/";
  }

  /** `getPublicUrl(path)` of the "avatars" bucket. */
  function PublicUrl(projectUrl: string, path: string): (url: string)
    ensures url != ""
  {
    projectUrl + PublicObjectPath + path
  }

  predicate IsImageType(mimeType: string) {
    StartsWith(mimeType, ImageTypePrefix)
  }

  /** Both checks `uploadAvatar` makes before touching a store. */
  predicate PassesValidation(file: File) {
    IsImageType(file.mimeType) && file.size <= MaxAvatarBytes
  }

  /** `remove([key])`; a failed remove leaves the bucket as it was. */
  function RemoveObject(bucket: map<string, File>, key: string, fails: bool): (r: map<string, File>)
    ensures key !in r <==> key !in bucket || !fails
    ensures forall k :: k != key ==> (k in r <==> k in bucket)
    ensures forall k :: k in r ==> r[k] == bucket[k]
  {
    if fails then bucket else bucket - {key}
  }

  /**
   * `update({avatar_url, avatar_updated_at}).eq("id", userId)`: rewrites the
   * two avatar columns of that one row; with no such row nothing changes.
   */
  function SetAvatarUrl(profiles: map<string, ProfileRow>, userId: string, url: Option<string>, now: string): (r: map<string, ProfileRow>)
    ensures r.Keys == profiles.Keys
    ensures userId in r ==> r[userId].avatarUrl == url && r[userId].avatarUpdatedAt == Some(now)
    ensures userId in r ==> r[userId].fullName == profiles[userId].fullName
    ensures forall u :: u in profiles && u != userId ==> r[u] == profiles[u]
  {
    if userId in profiles
    then profiles[userId := profiles[userId].(avatarUrl := url, avatarUpdatedAt := Some(now))]
    else profiles
  }

  /**
   * `uploadAvatar(file, userId)`: type check, then size check, then compress,
   * remove the old object, upsert the new one, read its public URL and point
   * the profile at it, returning at the first failure.
   */
  function Upload(b: Backend, projectUrl: string, file: File, userId: string, blob: Option<Blob>,
                  faults: StorageFaults, now: string): (out: (Backend, AvatarUploadResult))
    // rejections come before any store is touched, the type check first
    ensures !IsImageType(file.mimeType) ==> out == (b, Failed(InvalidTypeMessage))
    ensures IsImageType(file.mimeType) && file.size > MaxAvatarBytes ==> out == (b, Failed(TooLargeMessage))
    ensures out.1.success <==> PassesValidation(file) && faults.uploadError.None? && !faults.updateFails
    // nothing outside this user's slot and this user's row changes
    ensures out.0.profiles.Keys == b.profiles.Keys
    ensures forall u :: u in b.profiles && u != userId ==> out.0.profiles[u] == b.profiles[u]
    ensures forall k :: k != AvatarKey(userId) ==> (k in out.0.bucket <==> k in b.bucket)
    ensures forall k :: k in b.bucket && k != AvatarKey(userId) ==> out.0.bucket[k] == b.bucket[k]
    // success: the slot holds the compressed file and the row and the result name its public URL
    ensures out.1.success ==> out.1 == Succeeded(PublicUrl(projectUrl, AvatarKey(userId)))
    ensures out.1.success ==> out.0.bucket == b.bucket[AvatarKey(userId) := CompressImage(file, DefaultEdge, blob)]
    ensures out.1.success && userId in b.profiles ==> out.0.profiles[userId].avatarUrl == out.1.url
    ensures out.1.success ==> out.0.profiles == SetAvatarUrl(b.profiles, userId, out.1.url, now)
    // upload failure: the storage message, the row untouched, the old object already removed
    ensures PassesValidation(file) && faults.uploadError.Some? ==>
              out.1 == Failed(faults.uploadError.value) && out.0.profiles == b.profiles
              && (!faults.removeFails ==> AvatarKey(userId) !in out.0.bucket)
              && (faults.removeFails ==> out.0.bucket == b.bucket)
    // profile failure: a fixed message, the row untouched, the uploaded object left in place
    ensures PassesValidation(file) && faults.uploadError.None? && faults.updateFails ==>
              out.1 == Failed(ProfileUpdateMessage) && out.0.profiles == b.profiles
              && out.0.bucket == b.bucket[AvatarKey(userId) := CompressImage(file, DefaultEdge, blob)]
  {
    if !IsImageType(file.mimeType) then (b, Failed(InvalidTypeMessage))
    else if file.size > MaxAvatarBytes then (b, Failed(TooLargeMessage))
    else
      var compressed := CompressImage(file, DefaultEdge, blob);
      var key := AvatarKey(userId);
      var cleared := RemoveObject(b.bucket, key, faults.removeFails);
      if faults.uploadError.Some? then (Backend(cleared, b.profiles), Failed(faults.uploadError.value))
      else
        var stored := cleared[key := compressed];
        var url := PublicUrl(projectUrl, key);
        if faults.updateFails then (Backend(stored, b.profiles), Failed(ProfileUpdateMessage))
        else (Backend(stored, SetAvatarUrl(b.profiles, userId, Some(url), now)), Succeeded(url))
  }

  /**
   * `deleteAvatar(userId)`: remove the slot (its outcome ignored), then clear
   * the profile pointer; true exactly when the profile update succeeds.
   */
  function Delete(b: Backend, userId: string, faults: StorageFaults, now: string): (out: (Backend, bool))
    ensures out.1 <==> !faults.updateFails
    ensures !faults.removeFails ==> AvatarKey(userId) !in out.0.bucket
    ensures faults.removeFails ==> out.0.bucket == b.bucket
    ensures forall k :: k != AvatarKey(userId) ==> (k in out.0.bucket <==> k in b.bucket)
    ensures out.0.bucket.Keys <= b.bucket.Keys && out.0.profiles.Keys == b.profiles.Keys
    ensures forall k :: k in out.0.bucket ==> out.0.bucket[k] == b.bucket[k]
    ensures out.1 && userId in b.profiles ==> out.0.profiles[userId].avatarUrl == None
    ensures out.1 ==> out.0.profiles == SetAvatarUrl(b.profiles, userId, None, now)
    ensures !out.1 ==> out.0.profiles == b.profiles
    ensures forall u :: u in b.profiles && u != userId ==> out.0.profiles[u] == b.profiles[u]
  {
    var cleared := RemoveObject(b.bucket, AvatarKey(userId), faults.removeFails);
    if faults.updateFails then (Backend(cleared, b.profiles), false)
    else (Backend(cleared, SetAvatarUrl(b.profiles, userId, None, now)), true)
  }

  /**
   * What lands in the slot: a square JPEG when the encoder yields a blob, and
   * otherwise the original file, whatever its type, as if it had been compressed.
   */
  lemma StoredAvatarIsCompressedOrOriginal(b: Backend, projectUrl: string, file: File, userId: string,
                                           blob: Option<Blob>, faults: StorageFaults, now: string)
    requires PassesValidation(file) && faults.uploadError.None?
    ensures var stored := Upload(b, projectUrl, file, userId, blob, faults, now).0.bucket[AvatarKey(userId)];
            && (blob.Some? ==> stored.mimeType == JpegType && stored.width == DefaultEdge && stored.height == DefaultEdge)
            && (blob.None? ==> stored == file)
            && stored.name == file.name
  {
  }

  /** Every avatar pointer names its owner's slot, and that slot holds an object. */
  predicate PointersResolve(b: Backend, projectUrl: string) {
    forall u :: u in b.profiles && b.profiles[u].avatarUrl.Some? ==>
      b.profiles[u].avatarUrl.value == PublicUrl(projectUrl, AvatarKey(u)) && AvatarKey(u) in b.bucket
  }

  /**
   * Every upload keeps the pointers resolvable, except one that passes
   * validation and then fails to upload after the remove succeeded.
   */
  lemma UploadKeepsPointersResolved(b: Backend, projectUrl: string, file: File, userId: string,
                                    blob: Option<Blob>, faults: StorageFaults, now: string)
    requires PointersResolve(b, projectUrl)
    requires !PassesValidation(file) || faults.uploadError.None? || faults.removeFails
    ensures PointersResolve(Upload(b, projectUrl, file, userId, blob, faults, now).0, projectUrl)
  {
    var after := Upload(b, projectUrl, file, userId, blob, faults, now).0;
    forall u | u in after.profiles && after.profiles[u].avatarUrl.Some?
      ensures after.profiles[u].avatarUrl.value == PublicUrl(projectUrl, AvatarKey(u))
      ensures AvatarKey(u) in after.bucket
    {
      AvatarKeyInjective(u, userId);
    }
  }

  /** A failed upload after a successful remove leaves a pointer to an object that is gone. */
  lemma UploadFailureLeavesDanglingPointer()
    ensures var b := Backend(map["u/avatar.jpg" := File("a.png", "image/png", 10, 1, 1, Original(0))],
                             map["u" := ProfileRow(None, Some(PublicUrl("p", AvatarKey("u"))), None)]);
            var after := Upload(b, "p", File("b.png", "image/png", 10, 4, 3, Original(1)), "u", None,
                                StorageFaults(false, Some("quota"), false), "t").0;
            PointersResolve(b, "p") && !PointersResolve(after, "p")
  {
    var b := Backend(map["u/avatar.jpg" := File("a.png", "image/png", 10, 1, 1, Original(0))],
                     map["u" := ProfileRow(None, Some(PublicUrl("p", AvatarKey("u"))), None)]);
    assert AvatarKey("u") == "u/avatar.jpg";
    assert StartsWith("image/png", ImageTypePrefix);
    var after := Upload(b, "p", File("b.png", "image/png", 10, 4, 3, Original(1)), "u", None,
                        StorageFaults(false, Some("quota"), false), "t").0;
    assert "u" in after.profiles && after.profiles["u"].avatarUrl.Some?;
  }

  /** A delete keeps the pointers resolvable unless its remove succeeds and its profile update fails. */
  lemma DeleteKeepsPointersResolved(b: Backend, projectUrl: string, userId: string, faults: StorageFaults, now: string)
    requires PointersResolve(b, projectUrl)
    requires !faults.updateFails || faults.removeFails
    ensures PointersResolve(Delete(b, userId, faults, now).0, projectUrl)
  {
    var after := Delete(b, userId, faults, now).0;
    forall u | u in after.profiles && after.profiles[u].avatarUrl.Some?
      ensures after.profiles[u].avatarUrl.value == PublicUrl(projectUrl, AvatarKey(u))
      ensures AvatarKey(u) in after.bucket
    {
      AvatarKeyInjective(u, userId);
    }
  }

  /**
   * Under the single-slot key an upload adds no key but the user's slot, so
   * the bucket grows by at most one object.
   */
  lemma UploadAddsAtMostOneObject(b: Backend, projectUrl: string, file: File, userId: string,
                                  blob: Option<Blob>, faults: StorageFaults, now: string)
    ensures Upload(b, projectUrl, file, userId, blob, faults, now).0.bucket.Keys <= b.bucket.Keys + {AvatarKey(userId)}
    ensures |Upload(b, projectUrl, file, userId, blob, faults, now).0.bucket| <= |b.bucket| + 1
  {
    var after := Upload(b, projectUrl, file, userId, blob, faults, now).0;
    var key := AvatarKey(userId);
    assert after.bucket.Keys <= b.bucket.Keys + {key};
    CardinalitySubset(after.bucket.Keys, b.bucket.Keys + {key});
  }

  /** Two uploads by the same user, whatever their files and outcomes, still add at most one object. */
  lemma RepeatedUploadsShareOneSlot(b: Backend, projectUrl: string, userId: string,
                                    file1: File, blob1: Option<Blob>, faults1: StorageFaults, now1: string,
                                    file2: File, blob2: Option<Blob>, faults2: StorageFaults, now2: string)
    ensures var first := Upload(b, projectUrl, file1, userId, blob1, faults1, now1).0;
            var second := Upload(first, projectUrl, file2, userId, blob2, faults2, now2).0;
            second.bucket.Keys <= b.bucket.Keys + {AvatarKey(userId)} && |second.bucket| <= |b.bucket| + 1
  {
    var first := Upload(b, projectUrl, file1, userId, blob1, faults1, now1).0;
    var second := Upload(first, projectUrl, file2, userId, blob2, faults2, now2).0;
    UploadAddsAtMostOneObject(b, projectUrl, file1, userId, blob1, faults1, now1);
    UploadAddsAtMostOneObject(first, projectUrl, file2, userId, blob2, faults2, now2);
    CardinalitySubset(second.bucket.Keys, b.bucket.Keys + {AvatarKey(userId)});
  }

  lemma CardinalitySubset(a: set<string>, b: set<string>)
    requires a <= b
    ensures |a| <= |b|
  {
    assert b == a + (b - a);
  }

  /**
   * The stores as a class, as the source mutates them: `uploadAvatar` and
   * `deleteAvatar` run their steps one after another against the bucket and
   * the table, returning early on a failure.
   */
  class AvatarStorage {
    const projectUrl: string
    var bucket: map<string, File>
    var profiles: map<string, ProfileRow>

    constructor (projectUrl: string, bucket: map<string, File>, profiles: map<string, ProfileRow>)
      ensures this.projectUrl == projectUrl && this.bucket == bucket && this.profiles == profiles
    {
      this.projectUrl := projectUrl;
      this.bucket := bucket;
      this.profiles := profiles;
    }

    function State(): Backend
      reads this
    {
      Backend(bucket, profiles)
    }

    /** `storage.from("avatars").remove([key])`. */
    method Remove(key: string, fails: bool)
      modifies this`bucket
      ensures bucket == RemoveObject(old(bucket), key, fails)
    {
      if !fails {
        bucket := bucket - {key};
      }
    }

    /** `storage.from("avatars").upload(key, file, {upsert: true})`: overwrites the key unless it fails. */
    method Put(key: string, file: File, error: Option<string>) returns (path: Option<string>)
      modifies this`bucket
      ensures error.None? ==> bucket == old(bucket)[key := file] && path == Some(key)
      ensures error.Some? ==> bucket == old(bucket) && path == None
    {
      if error.Some? {
        return None;
      }
      bucket := bucket[key := file];
      return Some(key);
    }

    /** `from("profiles").update({avatar_url, avatar_updated_at}).eq("id", userId)`. */
    method UpdatePointer(userId: string, url: Option<string>, now: string, fails: bool) returns (ok: bool)
      modifies this`profiles
      ensures ok == !fails
      ensures profiles == if fails then old(profiles) else SetAvatarUrl(old(profiles), userId, url, now)
    {
      if fails {
        return false;
      }
      if userId in profiles {
        profiles := profiles[userId := profiles[userId].(avatarUrl := url, avatarUpdatedAt := Some(now))];
      }
      return true;
    }

    method UploadAvatar(file: File, userId: string, blob: Option<Blob>, faults: StorageFaults, now: string)
      returns (result: AvatarUploadResult)
      modifies this
      ensures (State(), result) == Upload(old(State()), projectUrl, file, userId, blob, faults, now)
    {
      if !IsImageType(file.mimeType) {
        return Failed(InvalidTypeMessage);
      }
      if file.size > MaxAvatarBytes {
        return Failed(TooLargeMessage);
      }
      var compressed := CompressImage(file, DefaultEdge, blob);
      var fileName := AvatarKey(userId);
      Remove(fileName, faults.removeFails);
      var path := Put(fileName, compressed, faults.uploadError);
      if path.None? {
        return Failed(faults.uploadError.value);
      }
      var publicUrl := PublicUrl(projectUrl, path.value);
      var updated := UpdatePointer(userId, Some(publicUrl), now, faults.updateFails);
      if !updated {
        return Failed(ProfileUpdateMessage);
      }
      return Succeeded(publicUrl);
    }

    method DeleteAvatar(userId: string, faults: StorageFaults, now: string) returns (deleted: bool)
      modifies this
      ensures (State(), deleted) == Delete(old(State()), userId, faults, now)
    {
      var fileName := AvatarKey(userId);
      Remove(fileName, faults.removeFails);
      deleted := UpdatePointer(userId, None, now, faults.updateFails);
    }
  }
}
