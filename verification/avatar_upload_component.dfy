/**
 * The avatar picker (components/ui/avatar-upload.tsx): the state that
 * `handleFileSelect` and `handleDeleteAvatar` leave behind, the calls they make
 * to the parent's `onAvatarUpdate`, and what the widget shows. What the
 * library calls return (or whether they throw) is an input.
 */
module AvatarUploadComponent {
  import opened Wrappers
  import opened Text
  import Lib = AvatarUploadLib

  /** How the awaited `uploadAvatar` call ended. */
  datatype UploadCall = Returned(result: Lib.AvatarUploadResult) | Threw

  /** How the awaited `deleteAvatar` call ended. */
  datatype DeleteCall = Deleted(ok: bool) | DeleteThrew

  /** `result.success && result.url`: the only outcome that reaches `onAvatarUpdate`. */
  predicate Notifies(call: UploadCall) {
    call.Returned? && call.result.success && Truthy(call.result.url)
  }

  /** Every successful `uploadAvatar` result carries a URL, so the widget passes exactly the successes on. */
  lemma NotifiesExactlyOnSuccess(b: Lib.Backend, projectUrl: string, file: Lib.File, userId: string,
                                 blob: Option<Lib.Blob>, faults: Lib.StorageFaults, now: string)
    ensures var r := Lib.Upload(b, projectUrl, file, userId, blob, faults, now).1;
            && (Notifies(Returned(r)) <==> r.success)
            && (Notifies(Returned(r)) ==> r.url == Some(Lib.PublicUrl(projectUrl, Lib.AvatarKey(userId))))
  {
  }

  /** `userName?.split(" ").map(n => n[0]).join("").toUpperCase() || "?"`. */
  function WidgetInitials(userName: Option<string>): (r: string)
    ensures r != ""
    ensures userName.None? || AllSpaces(userName.value) ==> r == "?"
    ensures userName.Some? && !AllSpaces(userName.value) ==> r == Initials(userName.value)
  {
    InitialsOr(userName, Some("?")).value
  }

  datatype WidgetView = WidgetView(src: string, initials: string, buttonLabel: string, showRemove: bool)

  /**
   * The rendered widget: the preview, else the current avatar, else the
   * placeholder; the initials; and "Change" with a Remove button exactly when
   * there is a current avatar.
   */
  function View(previewUrl: Option<string>, currentAvatarUrl: Option<string>, userName: Option<string>): (v: WidgetView)
    ensures v.src != ""
    ensures Truthy(previewUrl) ==> v.src == previewUrl.value
    ensures !Truthy(previewUrl) ==> v.src == ImageSrc(currentAvatarUrl)
    ensures v.initials == WidgetInitials(userName)
    ensures v.showRemove <==> Truthy(currentAvatarUrl)
    ensures v.buttonLabel == (if v.showRemove then "Change" else "Upload")
  {
    var displayUrl := Or(previewUrl, currentAvatarUrl);
    WidgetView(ImageSrc(displayUrl), WidgetInitials(userName),
               if Truthy(currentAvatarUrl) then "Change" else "Upload", Truthy(currentAvatarUrl))
  }

  class AvatarWidget {
    var previewUrl: Option<string>
    var isUploading: bool
    /** Every `onAvatarUpdate` argument so far, oldest first. */
    var notified: seq<Option<string>>

    constructor ()
      ensures previewUrl == None && !isUploading && notified == []
    {
      previewUrl := None;
      isUploading := false;
      notified := [];
    }

    /**
     * `handleFileSelect`: with no file nothing happens; otherwise the preview
     * shows while the upload runs, the new URL goes to the parent only on a
     * success that carries one, and on every outcome the preview and the
     * uploading flag end cleared.
     */
    method HandleFileSelect(file: Option<Lib.File>, preview: string, call: UploadCall)
      modifies this
      ensures file.None? ==> previewUrl == old(previewUrl) && isUploading == old(isUploading) && notified == old(notified)
      ensures file.Some? ==> previewUrl == None && !isUploading
      ensures file.Some? ==> notified == old(notified) + (if Notifies(call) then [call.result.url] else [])
    {
      if file.None? {
        return;
      }
      previewUrl := Some(preview);
      isUploading := true;
      match call {
        case Returned(result) =>
          if result.success && Truthy(result.url) {
            notified := notified + [result.url];
            previewUrl := None;
          } else {
            previewUrl := None;
          }
        case Threw =>
          previewUrl := None;
      }
      isUploading := false;
    }

    /** `handleDeleteAvatar`: the parent hears `null` only when the delete reports success. */
    method HandleDeleteAvatar(call: DeleteCall)
      modifies this
      ensures !isUploading && previewUrl == old(previewUrl)
      ensures notified == old(notified) + (if call == Deleted(true) then [None] else [])
    {
      isUploading := true;
      match call {
        case Deleted(ok) =>
          if ok {
            notified := notified + [None];
          }
        case DeleteThrew =>
      }
      isUploading := false;
    }
  }
}
