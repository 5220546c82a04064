/**
 * The rows the components read: a post with its author's joined profile.
 * (lib/types, where the source declares them, is not part of this model; the
 * fields are those the components use.)
 */
module Records {
  import opened Wrappers

  /** The `profiles (id, email, full_name, avatar_url)` join of a post's author. */
  datatype AuthorProfile = AuthorProfile(id: string, email: Option<string>, fullName: Option<string>, avatarUrl: Option<string>)

  datatype Post = Post(
    id: string,
    title: string,
    slug: string,
    content: string,
    excerpt: Option<string>,
    featuredImage: Option<string>,
    images: Option<seq<string>>,
    published: bool,
    authorId: string,
    profiles: Option<AuthorProfile>)
}
