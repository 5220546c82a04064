# Minimalist Blog App: avatar pipeline, post image list and display rules

A Dafny model of the few parts of the blog app that hold logic of their own.
The rest is page rendering and direct database reads and writes.

- **Avatar pipeline** (`AvatarUploadLib`, for `lib/utils/avatar-upload.ts`).
  - `compressImage` cuts the largest centred square out of the picture (`CenteredCrop`). The offsets are kept doubled so half pixels stay integers.
  - When the canvas hands back a blob, the result is a 200 x 200 JPEG under the original name. When it hands back none, the original file comes back unchanged (`CompressImage`).
  - `uploadAvatar` checks the type, then the 2 MiB limit. It compresses, removes `${userId}/avatar.jpg`, upserts the new file there, reads the public URL and points the profile row at it. It returns at the first failure of the upload or the profile update; the outcome of the remove is ignored.
  - `deleteAvatar` removes the same key and sets the pointer to null.
  - Both are specified as functions (`Upload`, `Delete`) over a `Backend`: the "avatars" bucket as a map from key to file, and the "profiles" table as a map from id to row.
  - They are also implemented step by step in the class `AvatarStorage`, whose methods are proved equal to those functions.
  - Each call of a request can be made to fail (`StorageFaults`).
  - The model proves:
    - which paths keep every profile pointer resolvable;
    - that a failed upload after a successful remove leaves a dangling pointer;
    - that users never share a slot.
- **Post image list**.
  - `ImageUploadComponent.ImageUploader` is the uploader's state:
    - `handleFileUpload` checks the whole batch against `maxImages`, then runs a loop that skips files of the wrong type or over 5 MiB and records one `onImageAdd` call per accepted file;
    - the drag flag follows `handleDrag` and `handleDrop`.
  - `PostFormComponent.PostForm` is the editor's state:
    - adding and removing images keeps the featured-image slot consistent;
    - `postData` turns empty values into null;
    - submitting chooses between updating the row and inserting one.
- **Display rules**.
  - `Text.Initials` is the `split(" ").map(n => n[0]).join("").toUpperCase()` expression, with ASCII upper-casing. It is proved equal to a direct definition: the first character of every space-separated word.
  - Each page wraps it with its own fallback: `AvatarUploadComponent.WidgetInitials`, `ProfilePage.ProfileHeader`, `PostCard.CardView` and `UserNav.View`.
  - The same pages also hold the `||` chains for names and image sources and the split of posts into published and drafts.

Every external effect is an input of the model:
- the outcome of each storage and table call;
- the blob from the encoder;
- object URLs;
- the signed-in user;
- the slug;
- timestamps.

The avatar widget's catch blocks are modelled as explicit exception outcomes. The uploader's and the post form's catch blocks are not (see "## Left out").

The avatar storage works as follows:
- one fixed key per user;
- remove before upload;
- a 2 MiB limit;
- a silent fallback to the original file.

## Model

| member | source | states |
|---|---|---|
| `Text.OrElse` | components/blog/post-card.tsx:22 | `a \|\| "literal"`: a truthy value is kept as it is, and a falsy one (absent or empty) gives exactly the fallback. With a non-empty fallback the result is never empty. |
| `Text.ImageSrc` | components/blog/post-card.tsx:48 | An image `src` is never empty. It is the URL when that is truthy, otherwise "/placeholder.svg". |
| `Text.Split` | components/blog/post-card.tsx:24 | `split(" ")` gives at least one piece, and no piece contains a space. |
| `Text.JoinSplit` | components/blog/post-card.tsx:24 | Joining the pieces of `split(" ")` with " " gives back the original string. |
| `Text.ToUpper` | components/blog/post-card.tsx:27 | `toUpperCase` keeps the length and upper-cases each ASCII letter in place. |
| `Text.HeadsOfSplit` | components/blog/post-card.tsx:23-26 | Taking `n[0]` of every piece and joining the results picks exactly the characters that start a word. An empty piece contributes nothing. |
| `Text.WordStartsBounds` | components/blog/post-card.tsx:23-26 | Word starts are never longer than the string and never contain a space. They are empty exactly when the string is all spaces, and a string starting with a letter begins with that letter. |
| `Text.Initials` | components/blog/post-card.tsx:23-27 | The initials are the upper-cased word starts. They are no longer than the name and contain no space. They are empty exactly when the name is all spaces or empty. |
| `Text.InitialsOr` | components/ui/avatar-upload.tsx:110-115 | `name?.…toUpperCase() \|\| fallback`: the initials when the name is present and not all spaces (and then non-empty), otherwise exactly the fallback. |
| `Seqs.Filter` | app/profile/page.tsx:38-39 | `filter` never yields more elements than it was given. |
| `Seqs.FilterConcat` | components/blog/post-form.tsx:47 | Filtering a concatenation filters each part, so the kept elements keep their relative order. |
| `Seqs.FilterMembership` | components/blog/post-form.tsx:47 | An element is kept exactly when it occurs in the input and satisfies the test. |
| `Seqs.FilterSpec` | app/profile/page.tsx:38-39 | Membership as above for all elements, and the result is a subsequence of the input. |
| `Seqs.FilterIsSubsequence` | app/profile/page.tsx:38-39 | The filtered list is a subsequence of the input. |
| `Seqs.FilterComplement` | app/profile/page.tsx:38-39 | Two complementary filters split a list: their lengths and multisets add up to those of the list. |
| `Seqs.FilterOutCount` | components/blog/post-form.tsx:47 | Filtering out one value shortens the list by exactly the number of its copies. |
| `Seqs.FilterKeepsAll` | components/blog/post-form.tsx:47 | A filter that every element passes returns the list unchanged. |
| `AvatarUploadLib.CenteredCrop` | lib/utils/avatar-upload.ts:18-20 | The crop side is min(width, height), so one of the two offsets is 0. The window lies inside the image on both axes, with equal margins on either side. |
| `AvatarUploadLib.CompressImage` | lib/utils/avatar-upload.ts:40-50 | With a blob: a maxWidth x maxWidth "image/jpeg" file drawn from the centred crop, under the original name, with the blob's size. Without a blob: the original file unchanged. |
| `AvatarUploadLib.AvatarKey` | lib/utils/avatar-upload.ts:79-80 | The slot is the user's folder `userId + "/"` followed by the fixed name "avatar.jpg", so its length is the user id's plus 11. |
| `AvatarUploadLib.AvatarKeyInjective` | lib/utils/avatar-upload.ts:79-80 | The key `${userId}/avatar.jpg` lies under the user's own prefix, and two users never share a key. |
| `AvatarUploadLib.PublicUrl` | lib/utils/avatar-upload.ts:97-99 | The public URL of a stored path is never empty. |
| `AvatarUploadLib.RemoveObject` | lib/utils/avatar-upload.ts:83 | `remove([key])` deletes that key and nothing else. A failed remove leaves the bucket unchanged. |
| `AvatarUploadLib.SetAvatarUrl` | lib/utils/avatar-upload.ts:102-108 | The profile update rewrites `avatar_url` and `avatar_updated_at` of the user's row only. A missing row means no change. |
| `AvatarUploadLib.Upload` | lib/utils/avatar-upload.ts:65-115 | The type check comes first, then the size check (exactly 2 MiB passes). Both reject without touching either store. The call succeeds exactly when both checks pass and neither the upload nor the profile update fails. Nothing outside the user's slot and row changes. On success the slot holds the compressed file, and the result is `{ success: true, url }` with its public URL and no error. The table is exactly `SetAvatarUrl` with that URL: the user's row gets the URL and the timestamp, and keeps its `full_name`. On an upload error the result carries the storage message, the row is untouched, and the old object is gone when the remove succeeded, or still in place when the remove failed. On a profile-update error the result says "Failed to update profile" and the uploaded object stays. |
| `AvatarUploadLib.Delete` | lib/utils/avatar-upload.ts:126-144 | Returns true exactly when the profile update succeeds. The slot is removed when the remove succeeds, and the bucket is unchanged when it fails, whatever the update does. On success the table is exactly `SetAvatarUrl` with null: the pointer is null, the timestamp is set, and `full_name` is kept. On failure the table is unchanged. Other keys and rows are never touched. |
| `AvatarUploadLib.StoredAvatarIsCompressedOrOriginal` | lib/utils/avatar-upload.ts:48-50 | After an accepted upload the slot holds a 200 x 200 JPEG when the encoder gave a blob. Otherwise it holds the original file, whatever its type, under the ".jpg" key. |
| `AvatarUploadLib.UploadKeepsPointersResolved` | lib/utils/avatar-upload.ts:82-94 | If every profile pointer names its user's slot and that slot exists, this still holds after an upload, including one that validation rejects. The exception is an upload that passes validation and then fails after its remove succeeded. |
| `AvatarUploadLib.UploadFailureLeavesDanglingPointer` | lib/utils/avatar-upload.ts:82-94 | Concrete case: a user with a stored avatar whose next upload fails keeps a pointer to an object that has been removed. |
| `AvatarUploadLib.DeleteKeepsPointersResolved` | lib/utils/avatar-upload.ts:127-142 | A delete keeps all pointers resolvable unless its remove succeeds and its profile update fails. |
| `AvatarUploadLib.UploadAddsAtMostOneObject` | lib/utils/avatar-upload.ts:79-89 | An upload adds no key except the user's slot, so it grows the bucket by at most one object. |
| `AvatarUploadLib.RepeatedUploadsShareOneSlot` | lib/utils/avatar-upload.ts:79-89 | Two uploads by the same user, with any files and outcomes, add no key except that slot between them, so they grow the bucket by at most one object. |
| `AvatarUploadLib.AvatarStorage.Remove` | lib/utils/avatar-upload.ts:83 | The bucket becomes `RemoveObject` of the old bucket. |
| `AvatarUploadLib.AvatarStorage.Put` | lib/utils/avatar-upload.ts:86-94 | An upsert without error overwrites the key and returns its path. With an error nothing changes and no path is returned. |
| `AvatarUploadLib.AvatarStorage.UpdatePointer` | lib/utils/avatar-upload.ts:102-113 | Reports success exactly when the update does not fail, and then applies `SetAvatarUrl`. |
| `AvatarUploadLib.AvatarStorage.UploadAvatar` | lib/utils/avatar-upload.ts:61-120 | The step-by-step upload leaves the stores and returns the result that `Upload` specifies. |
| `AvatarUploadLib.AvatarStorage.DeleteAvatar` | lib/utils/avatar-upload.ts:122-149 | The step-by-step delete leaves the stores and returns the result that `Delete` specifies. |
| `ImageUploadComponent.AddCalls` | components/ui/image-upload.tsx:42-69 | The loop makes at most one `onImageAdd` call per selected file. |
| `ImageUploadComponent.AddCallsConcat` | components/ui/image-upload.tsx:42-69 | Files are handled one by one in input order. The calls for a concatenated selection are the calls for each part, in order. |
| `ImageUploadComponent.AddCallsSingle` | components/ui/image-upload.tsx:46-68 | A file with an "image/" type of at most 5 MiB gives one call with its object URL and name. Any other file is skipped. |
| `ImageUploadComponent.AddCallsAllAdmissible` | components/ui/image-upload.tsx:42-69 | When every file passes both checks, every file is added, in order. |
| `ImageUploadComponent.ImageUploader.HandleFileUpload` | components/ui/image-upload.tsx:27-84 | An absent or empty selection adds nothing and changes no state. So does one where `images.length + files.length > maxImages`, counting every selected file. Otherwise the recorded calls grow by exactly `AddCalls` of the batch, the post stays within `maxImages`, and `isUploading` ends false. |
| `ImageUploadComponent.ImageUploader.HandleDrag` | components/ui/image-upload.tsx:86-94 | "dragenter" and "dragover" set `dragActive`, "dragleave" clears it, and any other event leaves it. |
| `ImageUploadComponent.ImageUploader.constructor` | components/ui/image-upload.tsx:21-24 | `maxImages` defaults to 5 when the prop is absent. The uploader starts neither uploading nor dragging, with no calls made. |
| `ImageUploadComponent.ImageUploader.HandleDrop` | components/ui/image-upload.tsx:96-104 | A drop always clears `dragActive`. A non-empty drop is handled like a selected batch: the calls grow by `AddCalls` and `isUploading` ends false when the batch is admitted. Otherwise both are unchanged. |
| `PostFormComponent.AddImage` | components/blog/post-form.tsx:37-44 | The URL is appended after all earlier entries. The featured image is set to the URL when the form had neither a featured image nor any image, and is unchanged otherwise. No other field changes. "The featured image is unset or listed" is preserved. |
| `PostFormComponent.WithoutImage` | components/blog/post-form.tsx:47 | Every copy of the URL is removed. All other values stay, in their relative order. The length falls by exactly the number of copies, so every other entry keeps all its copies. A list without the URL is unchanged. |
| `PostFormComponent.RemoveImage` | components/blog/post-form.tsx:46-53 | The list loses the URL. The featured image is cleared exactly when it equals the URL, and is unchanged otherwise. No other field changes. The "unset or listed" invariant is preserved. |
| `PostFormComponent.NullIfEmpty` | components/blog/post-form.tsx:78-79 | `s \|\| null` is null exactly for the empty string, and reading it back with `\|\| ""` gives `s`. |
| `PostFormComponent.NullIfNoImages` | components/blog/post-form.tsx:80 | The image list is stored as null exactly when it is empty, and as the list itself otherwise. |
| `PostFormComponent.PostData` | components/blog/post-form.tsx:74-84 | Title, content, published flag, slug, author and timestamp are copied. The excerpt, featured image and image list are null exactly when empty, and otherwise read back as the form's values. |
| `PostFormComponent.LoadThenSave` | components/blog/post-form.tsx:74-84 | Saving a post loaded into the form unchanged writes back its title, content and published flag. Its excerpt, featured image and images are written back too, with empty values stored as null. |
| `PostFormComponent.ChooseWrite` | components/blog/post-form.tsx:87-93 | The form updates the post's own row exactly when `isEditing` is set and there is a post. Otherwise it inserts. |
| `PostFormComponent.PostForm.constructor` | components/blog/post-form.tsx:26-31 | The initial state is the post's fields, with "", false and [] for absent ones. |
| `PostFormComponent.PostForm.HandleImageAdd` | components/blog/post-form.tsx:37-44 | One call against the state it sees has the effect of `AddImage`. |
| `PostFormComponent.PostForm.HandleImageRemove` | components/blog/post-form.tsx:46-53 | One call has the effect of `RemoveImage`. |
| `PostFormComponent.PostForm.HandleSubmit` | components/blog/post-form.tsx:55-118 | With no signed-in user nothing is written. Otherwise exactly one write of the `postData` row happens, as update or insert per `ChooseWrite`. `isLoading` ends false. |
| `PostFormComponent.BatchAddAsWritten` | components/blog/post-form.tsx:37-44 | A batch as the handler runs it against one render snapshot. The list grows by one entry per URL. The featured image is either unchanged or one of the batch's URLs, and it changes only when the snapshot had neither a featured image nor any image. |
| `PostFormComponent.BatchAddSequential` | components/blog/post-form.tsx:37-44 | A batch handled call by call. The same growth and featured-image bounds hold, and a featured image that was unset or listed stays so. |
| `PostFormComponent.BatchImagesAppended` | components/blog/post-form.tsx:38 | One upload batch appends all its URLs to the list in order, whether each call sees a stale snapshot or the latest state. |
| `PostFormComponent.AsWrittenFeaturesLast` | components/blog/post-form.tsx:41-43 | As written, a batch into a form with no images and no featured image makes its last URL the featured image. |
| `PostFormComponent.SequentialFeaturesFirst` | components/blog/post-form.tsx:41-43 | When calls see each other's effects, such a batch features its first URL, and that URL is in the list. |
| `PostFormComponent.BatchKeepsExistingFeatured` | components/blog/post-form.tsx:41-43 | When the form already had an image or a featured image, a batch leaves the featured image alone under both readings. |
| `PostFormComponent.BatchFeaturedCounterexample` | components/blog/post-form.tsx:168-173 | Concrete case: two files dropped on a new post feature "blob:b", while the form's text promises the first one. |
| `PostFormComponent.FormBatchStaysWithinLimit` | components/blog/post-form.tsx:166 | With the form's `maxImages = 10`, a batch the uploader admits leaves the post with at most 10 images, both as written and handled call by call. |
| `AvatarUploadComponent.NotifiesExactlyOnSuccess` | components/ui/avatar-upload.tsx:43-46 | A result of `uploadAvatar` reaches `onAvatarUpdate` exactly when it is a success, and then it carries the slot's public URL. |
| `AvatarUploadComponent.WidgetInitials` | components/ui/avatar-upload.tsx:110-115 | Never empty. "?" when the name is absent or all spaces, the name's initials otherwise. |
| `AvatarUploadComponent.View` | components/ui/avatar-upload.tsx:109-166 | The image is the preview if set, else the current avatar, else the placeholder. At the component's "xl" size (its default, and the size its one caller uses), the Remove button shows and the upload button reads "Change" exactly when there is a current avatar. |
| `AvatarUploadComponent.AvatarWidget.constructor` | components/ui/avatar-upload.tsx:28-29 | The widget starts with no preview, not uploading, and with no `onAvatarUpdate` calls made. |
| `AvatarUploadComponent.AvatarWidget.HandleFileSelect` | components/ui/avatar-upload.tsx:33-78 | No file: no state change and no call. Otherwise, on every outcome (success, failure, exception) the preview ends null and `isUploading` false. `onAvatarUpdate` gets the URL only when the result has success and a URL. |
| `AvatarUploadComponent.AvatarWidget.HandleDeleteAvatar` | components/ui/avatar-upload.tsx:80-107 | `onAvatarUpdate(null)` is called only when `deleteAvatar` returns true. `isUploading` ends false. |
| `ProfilePage.PublishedPosts` | app/profile/page.tsx:38 | Exactly the published posts, in query order. None when the query returned nothing. |
| `ProfilePage.DraftPosts` | app/profile/page.tsx:39 | Exactly the unpublished posts, in query order. |
| `ProfilePage.PostsPartition` | app/profile/page.tsx:38-39 | Published and drafts partition the posts: their lengths and multisets add up to those of the posts. Both are empty when the query returned null. |
| `ProfilePage.DisplayName` | app/profile/page.tsx:41 | `profile?.full_name \|\| user.email`: the profile's name when it is present and non-empty, otherwise exactly the email. |
| `ProfilePage.ProfileHeader` | app/profile/page.tsx:41-98 | The name is the profile's non-empty `full_name`, otherwise the email. The initials are never empty: "?" when the name is missing or all spaces. The avatar falls back to the placeholder. The counts shown are the lengths of the published and draft lists, so they add up to the number of posts. |
| `PostCard.CardView` | components/blog/post-card.tsx:22-92 | The author is the full name, else the email, else "Anonymous", so never empty. The initials have no fallback: they are empty exactly for an all-space name. The featured image, the image count and the Draft badge show under the same conditions as the JSX. The count shown is `images.length`. |
| `PostCard.CardOfSavedPost` | components/blog/post-card.tsx:85-92 | A card for a post saved by the form shows the image count exactly when the form had images, with their number. It shows the featured image exactly when one was set, and the Draft badge exactly when the post was not published. |
| `UserNav.EmailInitial` | components/auth/user-nav.tsx:56 | `email?.charAt(0).toUpperCase()` is absent only without an email, "" for an empty email, and otherwise the upper-cased first character. |
| `UserNav.View` | components/auth/user-nav.tsx:50-77 | The name is the first non-empty of the profile name, the metadata name and the email. The initials are those of the name, else the email's first letter, so they are non-empty whenever the email is. The avatar falls back to the placeholder. The name line shows exactly for a non-empty name. |
| `UserNav.UserNavState.constructor` | components/auth/user-nav.tsx:28 | The profile state starts null. |
| `UserNav.UserNavState.ApplyProfileQuery` | components/auth/user-nav.tsx:32-39 | The profile is replaced only when the query returns a row. Otherwise it keeps its value. |

## Left out

- Network, auth and database clients: `createClient`, `auth.getUser`, storage and table calls. Storage and the profile table are in-memory maps, and each call's failure is an input. The `cacheControl` option is not modelled, and the upload simply overwrites its key.
- The `catch` blocks of `uploadAvatar` and `deleteAvatar` (lib/utils/avatar-upload.ts:116-119, 145-148): no modelled step throws. The avatar widget's catches (components/ui/avatar-upload.tsx:63-70, 98-103) are modelled as `Threw` / `DeleteThrew` outcomes.
- `compressImage` when the picture cannot be decoded: there is no `onerror` handler, so the promise never settles. The model takes the decoded width and height as inputs.
- Pixel work: `drawImage` resampling, JPEG encoding, the 0.8 quality factor and `lastModified`. Only the output size, type, name and the crop it was drawn from are modelled.
- React scheduling and effects: promises, `useEffect` re-runs when `user.id` changes, and setState batching. Each handler call is a method on explicit state. The batch snapshot behaviour is written out separately as `BatchAddAsWritten`.
- Toasts, router calls, `URL.createObjectURL` / `revokeObjectURL` (object URLs are inputs), file-input resets, JSX layout and CSS, and `handlePreview` (localStorage and `window.open`).
- Date formatting with `toLocaleDateString` depends on the locale. `toISOString` timestamps are opaque inputs.
- `generateSlug` (lib/utils/slug) is not part of this model. The slug is an input of `HandleSubmit`.
- AvatarUploadComponent.View: models the "xl" size only. At other sizes the source renders no buttons (components/ui/avatar-upload.tsx:153).
- Text.Heads: strings are sequences of Unicode characters. JavaScript's `n[0]` indexes UTF-16 code units, so for a word starting outside the Basic Multilingual Plane the source takes a lone surrogate where the model takes the whole character. The same holds for `charAt(0)` in `UserNav.EmailInitial`.
- ImageUploadComponent.ImageUploader.HandleFileUpload: the `catch` at components/ui/image-upload.tsx:75-80 is not modelled. A throw from `URL.createObjectURL` or `onImageAdd` would end the loop early and add no further files. The model assumes neither throws.
- PostFormComponent.PostForm.HandleSubmit: the `catch` at components/blog/post-form.tsx:109-114 is not modelled. A throw from the database client only shows a toast there, and `isLoading` still ends false.
- Text.ToUpper: upper-cases ASCII letters only. JavaScript's full Unicode case mapping, which can change a string's length, is not modelled.
- The remaining files hold no logic beyond one query and rendering: app/page.tsx, components/layout/navbar.tsx, app/profile/edit/page.tsx, components/profile/profile-edit-form.tsx and next.config.mjs.

## Findings

| source | as written | input that shows it | evidently intended | confidence | as-written member | corrected member |
|---|---|---|---|---|---|---|
| components/blog/post-form.tsx:41-43 | Every `handleImageAdd` call of one upload batch tests the same render snapshot (`!featuredImage && images.length === 0`) and calls `setFeaturedImage(imageUrl)`, so the last write wins. | A new post with two images dropped at once: ["blob:a", "blob:b"] makes "blob:b" the featured image. | The first uploaded image becomes the featured image, as the form says at post-form.tsx:172. | medium; not executed | `PostFormComponent.AsWrittenFeaturesLast` | `PostFormComponent.SequentialFeaturesFirst` |
