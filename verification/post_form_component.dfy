/**
 * The post editor (components/blog/post-form.tsx): the image list and the
 * featured-image slot kept by `handleImageAdd` / `handleImageRemove`, the
 * `postData` row built on submit, and the choice between update and insert.
 * `generateSlug` is not part of this model: the slug is an input, as are the
 * signed-in user's id and the `updated_at` timestamp.
 */
module PostFormComponent {
  import opened Wrappers
  import opened Seqs
  import opened Text
  import opened Records
  import Uploader = ImageUploadComponent

  /** The `maxImages` the form hands to its uploader. */
  const FormMaxImages: nat := 10

  /** The form's editable state. */
  datatype Fields = Fields(title: string, content: string, excerpt: string, published: bool,
                           featuredImage: string, images: seq<string>)

  /** The initial `useState` values: the post's fields, with `""`, `false` and `[]` for absent ones. */
  function InitialFields(post: Option<Post>): Fields {
    match post
    case None => Fields("", "", "", false, "", [])
    case Some(p) => Fields(p.title, p.content, p.excerpt.GetOr(""), p.published, p.featuredImage.GetOr(""), p.images.GetOr([]))
  }

  /** The featured image is unset or one of the post's images. */
  predicate FeaturedListed(f: Fields) {
    f.featuredImage == "" || f.featuredImage in f.images
  }

  /**
   * `handleImageAdd(url)` against the state it sees: the URL goes to the end
   * of the list, and becomes the featured image only when the form had
   * neither a featured image nor any image.
   */
  function AddImage(f: Fields, url: string): (g: Fields)
    ensures g.images == f.images + [url]
    ensures g.featuredImage != f.featuredImage ==> f.featuredImage == "" && f.images == [] && g.featuredImage == url
    ensures f.featuredImage == "" && f.images == [] ==> g.featuredImage == url
    ensures g.(images := f.images, featuredImage := f.featuredImage) == f
    ensures FeaturedListed(f) ==> FeaturedListed(g)
  {
    f.(images := f.images + [url],
       featuredImage := if f.featuredImage == "" && f.images == [] then url else f.featuredImage)
  }

  /** `images.filter(img => img !== url)`: every copy of `url` goes, the rest keep their order. */
  function WithoutImage(images: seq<string>, url: string): (r: seq<string>)
    ensures url !in r
    ensures forall x :: x != url ==> (x in r <==> x in images)
    ensures SubsequenceOf(r, images)
    ensures url !in images ==> r == images
    ensures |r| == |images| - multiset(images)[url]
  {
    WithoutImageFacts(images, url);
    Filter(images, (img: string) => img != url)
  }

  lemma WithoutImageFacts(images: seq<string>, url: string)
    ensures var r := Filter(images, (img: string) => img != url);
            && (forall x :: x in r <==> x in images && x != url)
            && SubsequenceOf(r, images)
            && (url !in images ==> r == images)
            && |r| == |images| - multiset(images)[url]
  {
    FilterSpec(images, (img: string) => img != url);
    FilterOutCount(images, (img: string) => img != url, url);
    if url !in images {
      FilterKeepsAll(images, (img: string) => img != url);
    }
  }

  /**
   * `handleImageRemove(url)`: the URL leaves the list, and the featured image
   * is cleared exactly when it was that URL.
   */
  function RemoveImage(f: Fields, url: string): (g: Fields)
    ensures g.images == WithoutImage(f.images, url)
    ensures g.featuredImage == if f.featuredImage == url then "" else f.featuredImage
    ensures g.(images := f.images, featuredImage := f.featuredImage) == f
    ensures FeaturedListed(f) ==> FeaturedListed(g)
  {
    f.(images := WithoutImage(f.images, url),
       featuredImage := if f.featuredImage == url then "" else f.featuredImage)
  }

  /** The row `handleSubmit` writes. */
  datatype PostRow = PostRow(title: string, slug: string, content: string, excerpt: Option<string>,
                             featuredImage: Option<string>, images: Option<seq<string>>, published: bool,
                             authorId: string, updatedAt: string)

  /** `s || null`: an empty string is stored as null. */
  function NullIfEmpty(s: string): (r: Option<string>)
    ensures r.None? <==> s == ""
    ensures r.GetOr("") == s
  {
    if s == "" then None else Some(s)
  }

  /** `images.length > 0 ? images : null`. */
  function NullIfNoImages(images: seq<string>): (r: Option<seq<string>>)
    ensures r.None? <==> images == []
    ensures r.GetOr([]) == images
  {
    if |images| > 0 then Some(images) else None
  }

  /** The `postData` object. */
  function PostData(f: Fields, slug: string, authorId: string, now: string): (r: PostRow)
    ensures r.title == f.title && r.content == f.content && r.published == f.published
    ensures r.slug == slug && r.authorId == authorId && r.updatedAt == now
    ensures r.excerpt.None? <==> f.excerpt == ""
    ensures r.excerpt.GetOr("") == f.excerpt
    ensures r.featuredImage.None? <==> f.featuredImage == ""
    ensures r.featuredImage.GetOr("") == f.featuredImage
    ensures r.images.None? <==> f.images == []
    ensures r.images.GetOr([]) == f.images
  {
    PostRow(f.title, slug, f.content, NullIfEmpty(f.excerpt), NullIfEmpty(f.featuredImage),
            NullIfNoImages(f.images), f.published, authorId, now)
  }

  /**
   * Loading a post into the form and saving it untouched writes its values
   * back, with an empty excerpt, featured image or image list stored as null.
   */
  lemma LoadThenSave(p: Post, slug: string, authorId: string, now: string)
    ensures var row := PostData(InitialFields(Some(p)), slug, authorId, now);
            && row.title == p.title && row.content == p.content && row.published == p.published
            && row.excerpt == (if Truthy(p.excerpt) then p.excerpt else None)
            && row.featuredImage == (if Truthy(p.featuredImage) then p.featuredImage else None)
            && row.images == (if p.images.Some? && p.images.value != [] then p.images else None)
  {
  }

  datatype WriteAction = UpdateRow(id: string) | InsertRow

  /** `isEditing && post`: update that post's row; otherwise insert a new one. */
  function ChooseWrite(isEditing: bool, post: Option<Post>): (a: WriteAction)
    ensures a.UpdateRow? <==> isEditing && post.Some?
    ensures a.UpdateRow? ==> a.id == post.value.id
  {
    if isEditing && post.Some? then UpdateRow(post.value.id) else InsertRow
  }

  /** What one submission does: nothing without a signed-in user, else one write. */
  datatype Submission = NotSignedIn | Write(action: WriteAction, row: PostRow)

  class PostForm {
    const post: Option<Post>
    const isEditing: bool
    var title: string
    var content: string
    var excerpt: string
    var published: bool
    var featuredImage: string
    var images: seq<string>
    var isLoading: bool

    constructor (post: Option<Post>, isEditing: bool)
      ensures this.post == post && this.isEditing == isEditing
      ensures State() == InitialFields(post) && !isLoading
    {
      this.post := post;
      this.isEditing := isEditing;
      var f := InitialFields(post);
      title, content, excerpt, published := f.title, f.content, f.excerpt, f.published;
      featuredImage, images := f.featuredImage, f.images;
      isLoading := false;
    }

    function State(): Fields
      reads this
    {
      Fields(title, content, excerpt, published, featuredImage, images)
    }

    method HandleImageAdd(url: string)
      modifies this`images, this`featuredImage
      ensures State() == AddImage(old(State()), url)
    {
      var wasEmpty := |images| == 0;
      images := images + [url];
      if featuredImage == "" && wasEmpty {
        featuredImage := url;
      }
    }

    method HandleImageRemove(url: string)
      modifies this`images, this`featuredImage
      ensures State() == RemoveImage(old(State()), url)
    {
      images := WithoutImage(images, url);
      if featuredImage == url {
        featuredImage := "";
      }
    }

    /**
     * `handleSubmit`: with no user nothing is written; otherwise the
     * normalised row goes to an update or an insert. The loading flag ends
     * cleared either way.
     */
    method HandleSubmit(user: Option<string>, slug: string, now: string) returns (s: Submission)
      modifies this`isLoading
      ensures !isLoading
      ensures s.NotSignedIn? <==> user.None?
      ensures s.Write? ==> s.row == PostData(State(), slug, user.value, now)
      ensures s.Write? ==> s.action == ChooseWrite(isEditing, post)
    {
      isLoading := true;
      if user.None? {
        isLoading := false;
        return NotSignedIn;
      }
      var postData := PostData(State(), slug, user.value, now);
      var action := if isEditing && post.Some? then UpdateRow(post.value.id) else InsertRow;
      s := Write(action, postData);
      isLoading := false;
    }
  }

  // ---------------------------------------------------------------------------
  // One upload batch seen by the form.
  //
  // The uploader calls `handleImageAdd` once per accepted file inside one
  // event, so every call sees the same render snapshot of `images` and
  // `featuredImage`; only `setImages(prev => ...)` builds on the pending
  // update, while `setFeaturedImage(url)` overwrites it.

  /** A batch as the handler runs it: each call tests the snapshot, the last write to the featured slot wins. */
  function BatchAddAsWritten(snapshot: Fields, urls: seq<string>): (r: Fields)
    ensures |r.images| == |snapshot.images| + |urls|
    ensures r.featuredImage == snapshot.featuredImage || r.featuredImage in urls
    ensures r.featuredImage != snapshot.featuredImage ==> snapshot.featuredImage == "" && snapshot.images == []
    decreases |urls|
  {
    if urls == [] then snapshot
    else
      var pending := BatchAddAsWritten(snapshot, urls[..|urls| - 1]);
      var url := urls[|urls| - 1];
      pending.(images := pending.images + [url],
               featuredImage := if snapshot.featuredImage == "" && snapshot.images == [] then url
                                else pending.featuredImage)
  }

  /** A batch as one handler call after another, each seeing the state the previous one left. */
  function BatchAddSequential(f: Fields, urls: seq<string>): (r: Fields)
    ensures |r.images| == |f.images| + |urls|
    ensures r.featuredImage == f.featuredImage || r.featuredImage in urls
    ensures r.featuredImage != f.featuredImage ==> f.featuredImage == "" && f.images == []
    ensures FeaturedListed(f) ==> FeaturedListed(r)
    decreases |urls|
  {
    if urls == [] then f else AddImage(BatchAddSequential(f, urls[..|urls| - 1]), urls[|urls| - 1])
  }

  /** Both readings append the whole batch to the list, in order. */
  lemma {:induction false} BatchImagesAppended(f: Fields, urls: seq<string>)
    ensures BatchAddAsWritten(f, urls).images == f.images + urls
    ensures BatchAddSequential(f, urls).images == f.images + urls
    ensures BatchAddAsWritten(f, urls).(images := f.images, featuredImage := f.featuredImage) == f
    decreases |urls|
  {
    if urls != [] {
      var n := |urls| - 1;
      BatchImagesAppended(f, urls[..n]);
      assert urls == urls[..n] + [urls[n]];
    }
  }

  /** As written, a batch into an empty form features its LAST image. */
  lemma AsWrittenFeaturesLast(f: Fields, urls: seq<string>)
    requires f.featuredImage == "" && f.images == [] && urls != []
    ensures BatchAddAsWritten(f, urls).featuredImage == urls[|urls| - 1]
  {
  }

  /** Handled call by call, a batch into an empty form features its FIRST image, and keeps it listed. */
  lemma {:induction false} SequentialFeaturesFirst(f: Fields, urls: seq<string>)
    requires f.featuredImage == "" && f.images == [] && urls != []
    ensures BatchAddSequential(f, urls).featuredImage == urls[0]
    ensures FeaturedListed(BatchAddSequential(f, urls))
    decreases |urls|
  {
    var n := |urls| - 1;
    if n > 0 {
      SequentialFeaturesFirst(f, urls[..n]);
      assert urls[..n][0] == urls[0];
      BatchImagesAppended(f, urls[..n]);
    } else {
      assert urls[..n] == [];
    }
  }

  /** When the form already had an image or a featured image, both readings leave the featured slot alone. */
  lemma {:induction false} BatchKeepsExistingFeatured(f: Fields, urls: seq<string>)
    requires f.featuredImage != "" || f.images != []
    ensures BatchAddAsWritten(f, urls).featuredImage == f.featuredImage
    ensures BatchAddSequential(f, urls).featuredImage == f.featuredImage
    decreases |urls|
  {
    if urls != [] {
      var n := |urls| - 1;
      BatchKeepsExistingFeatured(f, urls[..n]);
      BatchImagesAppended(f, urls[..n]);
    }
  }

  /** Two files dropped on a new post: the form says the first is featured, but the second is. */
  lemma BatchFeaturedCounterexample()
    ensures var empty := InitialFields(None);
            && BatchAddAsWritten(empty, ["blob:a", "blob:b"]).featuredImage == "blob:b"
            && BatchAddSequential(empty, ["blob:a", "blob:b"]).featuredImage == "blob:a"
  {
    var urls := ["blob:a", "blob:b"];
    AsWrittenFeaturesLast(InitialFields(None), urls);
    SequentialFeaturesFirst(InitialFields(None), urls);
  }

  /** The URLs of the uploader's `onImageAdd` calls, in call order. */
  function CallUrls(calls: seq<Uploader.AddCall>): seq<string> {
    seq(|calls|, i requires 0 <= i < |calls| => calls[i].imageUrl)
  }

  /**
   * With the form's limit of 10, a batch the uploader admits leaves the post
   * with at most 10 images once every accepted file has reached `handleImageAdd`.
   */
  lemma FormBatchStaysWithinLimit(f: Fields, files: seq<Uploader.SelectedFile>, objectUrls: seq<string>)
    requires |objectUrls| == |files|
    requires |f.images| + |files| <= FormMaxImages
    ensures |BatchAddAsWritten(f, CallUrls(Uploader.AddCalls(files, objectUrls))).images| <= FormMaxImages
    ensures |BatchAddSequential(f, CallUrls(Uploader.AddCalls(files, objectUrls))).images| <= FormMaxImages
  {
    BatchImagesAppended(f, CallUrls(Uploader.AddCalls(files, objectUrls)));
  }
}
