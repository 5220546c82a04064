/**
 * A post's summary card (components/blog/post-card.tsx): the author line and
 * the conditions under which the featured image, the image count and the
 * Draft badge appear. Date formatting is not part of this model.
 */
module PostCard {
  import opened Wrappers
  import opened Text
  import opened Records
  import PostFormComponent

  const Anonymous: string := "Anonymous"

  datatype Card = Card(authorName: string, authorInitials: string, avatarSrc: string,
                       showFeaturedImage: bool, imageCount: Option<nat>, showDraftBadge: bool)

  /**
   * The card of one post. The author is the full name, else the email, else
   * "Anonymous", so never empty; the initials have no fallback, so a name of
   * spaces shows none.
   */
  function CardView(p: Post): (c: Card)
    ensures c.authorName != ""
    ensures p.profiles.Some? && Truthy(p.profiles.value.fullName) ==> c.authorName == p.profiles.value.fullName.value
    ensures p.profiles.Some? && !Truthy(p.profiles.value.fullName) && Truthy(p.profiles.value.email) ==>
              c.authorName == p.profiles.value.email.value
    ensures p.profiles.None? || (!Truthy(p.profiles.value.fullName) && !Truthy(p.profiles.value.email)) ==>
              c.authorName == Anonymous
    ensures c.authorInitials == Initials(c.authorName)
    ensures c.authorInitials == "" <==> AllSpaces(c.authorName)
    ensures c.avatarSrc == ImageSrc(if p.profiles.Some? then p.profiles.value.avatarUrl else None)
    ensures c.showFeaturedImage <==> Truthy(p.featuredImage)
    ensures c.imageCount.Some? <==> p.images.Some? && p.images.value != []
    ensures c.imageCount.Some? ==> c.imageCount.value == |p.images.value|
    ensures c.showDraftBadge <==> !p.published
  {
    var fullName := if p.profiles.Some? then p.profiles.value.fullName else None;
    var email := if p.profiles.Some? then p.profiles.value.email else None;
    var authorName := OrElse(Or(fullName, email), Anonymous);
    Card(authorName, Initials(authorName),
         ImageSrc(if p.profiles.Some? then p.profiles.value.avatarUrl else None),
         Truthy(p.featuredImage),
         if p.images.Some? && |p.images.value| > 0 then Some(|p.images.value|) else None,
         !p.published)
  }

  /**
   * A post saved from the form and shown as a card: the image count appears
   * exactly when the form had images and shows how many, the featured image
   * exactly when one was set, the Draft badge exactly when it was not published.
   */
  lemma CardOfSavedPost(f: PostFormComponent.Fields, slug: string, authorId: string, now: string,
                        id: string, author: Option<AuthorProfile>)
    ensures var row := PostFormComponent.PostData(f, slug, authorId, now);
            var c := CardView(Post(id, row.title, row.slug, row.content, row.excerpt, row.featuredImage,
                                   row.images, row.published, row.authorId, author));
            && c.imageCount == (if f.images == [] then None else Some(|f.images|))
            && (c.showFeaturedImage <==> f.featuredImage != "")
            && (c.showDraftBadge <==> !f.published)
  {
  }
}
