/**
 * The profile page (app/profile/page.tsx): the published / draft split of the
 * author's posts and the header's name, initials and avatar.
 */
module ProfilePage {
  import opened Wrappers
  import opened Seqs
  import opened Text
  import opened Records

  /** The signed-in user's `profiles` row, as far as the header uses it. */
  datatype ProfileRecord = ProfileRecord(fullName: Option<string>, avatarUrl: Option<string>)

  predicate IsPublished(p: Post) {
    p.published
  }

  predicate IsDraft(p: Post) {
    !p.published
  }

  /** `posts?.filter(post => post.published) || []`: the published posts, in the query's order. */
  function PublishedPosts(posts: Option<seq<Post>>): (r: seq<Post>)
    ensures forall p :: p in r <==> p in posts.GetOr([]) && p.published
    ensures SubsequenceOf(r, posts.GetOr([]))
  {
    FilterSpec(posts.GetOr([]), IsPublished);
    Filter(posts.GetOr([]), IsPublished)
  }

  /** `posts?.filter(post => !post.published) || []`: the drafts, in the query's order. */
  function DraftPosts(posts: Option<seq<Post>>): (r: seq<Post>)
    ensures forall p :: p in r <==> p in posts.GetOr([]) && !p.published
    ensures SubsequenceOf(r, posts.GetOr([]))
  {
    FilterSpec(posts.GetOr([]), IsDraft);
    Filter(posts.GetOr([]), IsDraft)
  }

  /**
   * The two lists partition the posts: together they hold every post exactly
   * once (as many times as the query returned it). A missing result gives two
   * empty lists.
   */
  lemma PostsPartition(posts: Option<seq<Post>>)
    ensures posts.None? ==> PublishedPosts(posts) == [] && DraftPosts(posts) == []
    ensures |PublishedPosts(posts)| + |DraftPosts(posts)| == |posts.GetOr([])|
    ensures multiset(PublishedPosts(posts)) + multiset(DraftPosts(posts)) == multiset(posts.GetOr([]))
  {
    FilterComplement(posts.GetOr([]), IsPublished, IsDraft);
  }

  /** `profile?.full_name || user.email`. */
  function DisplayName(profile: Option<ProfileRecord>, email: Option<string>): (name: Option<string>)
    ensures profile.Some? && Truthy(profile.value.fullName) ==> name == profile.value.fullName
    ensures !(profile.Some? && Truthy(profile.value.fullName)) ==> name == email
  {
    Or(if profile.Some? then profile.value.fullName else None, email)
  }

  datatype Header = Header(displayName: Option<string>, initials: string, avatarSrc: string,
                           publishedCount: nat, draftCount: nat)

  /** The header card: name, initials with a "?" fallback, avatar, and the two counts. */
  function ProfileHeader(profile: Option<ProfileRecord>, email: Option<string>, posts: Option<seq<Post>>): (h: Header)
    ensures profile.Some? && Truthy(profile.value.fullName) ==> h.displayName == profile.value.fullName
    ensures !(profile.Some? && Truthy(profile.value.fullName)) ==> h.displayName == email
    ensures h.initials != ""
    ensures h.displayName.None? || AllSpaces(h.displayName.value) ==> h.initials == "?"
    ensures h.displayName.Some? && !AllSpaces(h.displayName.value) ==> h.initials == Initials(h.displayName.value)
    ensures h.avatarSrc == ImageSrc(if profile.Some? then profile.value.avatarUrl else None)
    ensures h.publishedCount == |PublishedPosts(posts)| && h.draftCount == |DraftPosts(posts)|
    ensures h.publishedCount + h.draftCount == |posts.GetOr([])|
  {
    PostsPartition(posts);
    var displayName := DisplayName(profile, email);
    Header(displayName, InitialsOr(displayName, Some("?")).value,
           ImageSrc(if profile.Some? then profile.value.avatarUrl else None),
           |PublishedPosts(posts)|, |DraftPosts(posts)|)
  }
}
