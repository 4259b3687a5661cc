/** The read-only views: the home listing, a group's listing, an author's
    profile, a post with its comments, and the follow feed. Each reads the
    store's tables, passed in as values, and yields the handler's outcome. */
module Queries {
  import opened Entities
  import opened Filtering
  import opened Paging
  import opened FollowGraph

  /** The position of the post whose primary key is `id`, if any (the
      lookup `get_object_or_404(Post, pk=id)` performs). */
  function FindPost(posts: seq<Post>, id: nat): (r: Option<nat>)
    ensures r.None? <==> forall p :: p in posts ==> p.id != id
    ensures r.Some? ==> r.value < |posts| && posts[r.value].id == id
    ensures r.Some? ==> forall j :: 0 <= j < r.value ==> posts[j].id != id
  {
    if posts == [] then None
    else if posts[0].id == id then Some(0)
    else match FindPost(posts[1..], id)
      case None => None
      case Some(k) => Some(k + 1)
  }

  /** Selection conditions of the listings. */
  function InGroup(slug: Slug): Post -> bool {
    (p: Post) => p.group == Some(slug)
  }

  function ByAuthor(username: Username): Post -> bool {
    (p: Post) => p.author == username
  }

  function OnPost(id: nat): Comment -> bool {
    (c: Comment) => c.post == id
  }

  /** Home page: the selected page of all posts; without a page parameter,
      the newest ten. */
  function Index(posts: seq<Post>, pageArg: Option<int>): (r: Outcome)
    ensures r.Render? && r.context.PostsPage?
    ensures r.context.page.numPages == PageCount(|posts|)
    ensures |r.context.page.items| <= PageSize
    ensures pageArg.None? ==> r.context.page.items == if |posts| <= PageSize then posts else posts[..PageSize]
    ensures forall p :: p in r.context.page.items ==> p in posts
  {
    var page := Paginate(posts, pageArg);
    assert forall p :: p in page.items ==> p in posts;
    Render(PostsPage(page))
  }

  /** A group's listing; an unknown slug is a 404. */
  function GroupPosts(groups: map<Slug, Group>, posts: seq<Post>, slug: Slug, pageArg: Option<int>): (r: Outcome)
    ensures r.NotFound? <==> slug !in groups
    ensures slug in groups ==> r.Render? && r.context.GroupPage? && r.context.group == groups[slug]
    ensures r.Render? ==> |r.context.page.items| <= PageSize
    ensures r.Render? ==> forall p :: p in r.context.page.items ==> p in posts && p.group == Some(slug)
  {
    if slug !in groups then NotFound
    else
      var page := Paginate(Filter(posts, InGroup(slug)), pageArg);
      assert forall p :: p in page.items ==> p in Filter(posts, InGroup(slug));
      Render(GroupPage(page, groups[slug]))
  }

  /** An author's profile: the selected page of their posts and whether the
      viewer follows them (never, for an anonymous viewer); an unknown
      username is a 404. */
  function Profile(users: set<Username>, posts: seq<Post>, follows: seq<Follow>, viewer: Option<Username>,
                   username: Username, pageArg: Option<int>): (r: Outcome)
    ensures r.NotFound? <==> username !in users
    ensures username in users ==> r.Render? && r.context.ProfilePage? && r.context.author == username
    ensures r.Render? ==> (r.context.following <==> viewer.Some? && Following(follows, viewer.value, username))
    ensures r.Render? ==> |r.context.page.items| <= PageSize
    ensures r.Render? ==> forall p :: p in r.context.page.items ==> p in posts && p.author == username
  {
    if username !in users then NotFound
    else
      var page := Paginate(Filter(posts, ByAuthor(username)), pageArg);
      assert forall p :: p in page.items ==> p in Filter(posts, ByAuthor(username));
      var following := viewer.Some? && Following(follows, viewer.value, username);
      Render(ProfilePage(page, username, following))
  }

  /** A post and all of its comments, in creation order; an unknown id is a 404. */
  function PostDetail(posts: seq<Post>, comments: seq<Comment>, id: nat): (r: Outcome)
    ensures r.NotFound? <==> forall p :: p in posts ==> p.id != id
    ensures !r.NotFound? ==> r.Render? && r.context.DetailPage?
    ensures r.Render? ==> r.context.post in posts && r.context.post.id == id
    ensures r.Render? ==> forall c :: c in r.context.comments <==> c in comments && c.post == id
  {
    match FindPost(posts, id)
    case None => NotFound
    case Some(i) => Render(DetailPage(posts[i], Filter(comments, OnPost(id))))
  }

  /** The follow feed of a signed-in viewer: the selected page of the posts
      joined with the viewer's Follow rows. Anonymous viewers are sent to
      the login page. */
  function FollowIndex(posts: seq<Post>, follows: seq<Follow>, viewer: Option<Username>, pageArg: Option<int>): (r: Outcome)
    ensures r.LoginRedirect? <==> viewer.None?
    ensures viewer.Some? ==> r.Render? && r.context.PostsPage?
    ensures r.Render? ==> |r.context.page.items| <= PageSize
    ensures r.Render? ==> forall p :: p in r.context.page.items ==> p in posts && Following(follows, viewer.value, p.author)
  {
    if viewer.None? then LoginRedirect
    else
      var page := Paginate(FeedJoin(posts, follows, viewer.value), pageArg);
      assert forall p :: p in page.items ==> p in FeedJoin(posts, follows, viewer.value);
      Render(PostsPage(page))
  }

  /** Every post of a listing is on some page of it. */
  lemma ListedOnSomePage(s: seq<Post>, p: Post) returns (k: int)
    requires p in s
    ensures p in Paginate(s, Some(k)).items
  {
    var i :| 0 <= i < |s| && s[i] == p;
    ItemOnItsPage(s, i);
    k := i / PageSize + 1;
  }

  /** The home listing is complete: each stored post is on some page. */
  lemma IndexListingComplete(posts: seq<Post>, p: Post) returns (k: int)
    requires p in posts
    ensures p in Index(posts, Some(k)).context.page.items
  {
    k := ListedOnSomePage(posts, p);
  }

  /** A group's listing is complete: each post of the group is on some page. */
  lemma GroupListingComplete(groups: map<Slug, Group>, posts: seq<Post>, slug: Slug, p: Post) returns (k: int)
    requires slug in groups
    requires p in posts && p.group == Some(slug)
    ensures p in GroupPosts(groups, posts, slug, Some(k)).context.page.items
  {
    k := ListedOnSomePage(Filter(posts, InGroup(slug)), p);
  }

  /** A profile is complete: each post of the author is on some page. */
  lemma ProfileListingComplete(users: set<Username>, posts: seq<Post>, follows: seq<Follow>, viewer: Option<Username>,
                               p: Post) returns (k: int)
    requires p.author in users && p in posts
    ensures p in Profile(users, posts, follows, viewer, p.author, Some(k)).context.page.items
  {
    k := ListedOnSomePage(Filter(posts, ByAuthor(p.author)), p);
  }

  /** With no duplicate Follow rows the feed is complete: each post by an
      author the viewer follows is on some page of it. */
  lemma FeedComplete(posts: seq<Post>, follows: seq<Follow>, viewer: Username, p: Post) returns (k: int)
    requires NoDuplicates(follows)
    requires p in posts && Following(follows, viewer, p.author)
    ensures p in FollowIndex(posts, follows, Some(viewer), Some(k)).context.page.items
  {
    FeedIsFollowedPosts(posts, follows, viewer);
    k := ListedOnSomePage(FeedJoin(posts, follows, viewer), p);
  }

  /** A newly stored post (the head of the newest-first table) opens the
      uncached home listing, its author's profile and its group's listing. */
  lemma NewestPostShownFirst(users: set<Username>, groups: map<Slug, Group>, posts: seq<Post>, follows: seq<Follow>,
                             viewer: Option<Username>, p: Post)
    requires p.author in users
    ensures Index([p] + posts, None).context.page.items[0] == p
    ensures Profile(users, [p] + posts, follows, viewer, p.author, None).context.page.items[0] == p
    ensures p.group.Some? && p.group.value in groups ==>
      GroupPosts(groups, [p] + posts, p.group.value, None).context.page.items[0] == p
  {
    assert ([p] + posts)[1..] == posts;
  }

  /** Following an author sets the profile's flag; unfollowing clears it. */
  lemma FollowingFlagTracksTable(users: set<Username>, posts: seq<Post>, follows: seq<Follow>, viewer: Username,
                                 author: Username, pageArg: Option<int>)
    requires author in users && viewer != author
    ensures Profile(users, posts, WithFollow(follows, viewer, author), Some(viewer), author, pageArg).context.following
    ensures !Profile(users, posts, WithoutFollow(follows, viewer, author), Some(viewer), author, pageArg).context.following
  {
  }

  /** After an unfollow the feed shows none of that author's posts. */
  lemma FeedAfterUnfollow(posts: seq<Post>, follows: seq<Follow>, viewer: Username, author: Username, pageArg: Option<int>)
    ensures var feed := FollowIndex(posts, WithoutFollow(follows, viewer, author), Some(viewer), pageArg);
      forall p :: p in feed.context.page.items ==> p.author != author
  {
  }

  /** A viewer who follows none of the posts' authors has an empty feed. */
  lemma FeedEmptyWithoutSubscriptions(posts: seq<Post>, follows: seq<Follow>, viewer: Username, pageArg: Option<int>)
    requires forall p :: p in posts ==> !Following(follows, viewer, p.author)
    ensures FollowIndex(posts, follows, Some(viewer), pageArg).context.page.items == []
  {
    FeedJoinEmpty(posts, follows, viewer);
  }

  /** A comment added to a post is listed last among that post's comments. */
  lemma NewCommentShownLast(posts: seq<Post>, comments: seq<Comment>, c: Comment)
    requires exists p :: p in posts && p.id == c.post
    ensures PostDetail(posts, comments + [c], c.post).context.comments
      == PostDetail(posts, comments, c.post).context.comments + [c]
  {
    FilterAppend(comments, [c], OnPost(c.post));
    assert Filter([c], OnPost(c.post)) == [c];
  }
}
