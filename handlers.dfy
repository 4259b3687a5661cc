/** The handlers that change the store: creating and editing posts, adding
    comments, following and unfollowing authors. Each is guarded by the
    login requirement: an anonymous viewer gets a login redirect and the
    store is left as it was. */
module Handlers {
  import opened Entities
  import opened FollowGraph
  import opened Queries

  /** A post form passes validation: it was submitted, its text and image
      fields are clean, and the chosen group, if any, exists. */
  predicate PostFormValid(groups: map<Slug, Group>, data: Option<PostData>): (r: bool)
    ensures data.None? ==> !r
    ensures data.Some? && !data.value.fieldsClean ==> !r
    ensures data.Some? && data.value.group.Some? && data.value.group.value !in groups ==> !r
    ensures data.Some? && data.value.fieldsClean && data.value.group.None? ==> r
    ensures data.Some? && data.value.fieldsClean && data.value.group.Some? && data.value.group.value in groups ==> r
  {
    && data.Some?
    && data.value.fieldsClean
    && (data.value.group.Some? ==> data.value.group.value in groups)
  }

  /** A comment form passes validation: it was submitted and its text is clean. */
  predicate CommentFormValid(data: Option<CommentData>): (r: bool)
    ensures data.None? ==> !r
    ensures data.Some? ==> (r <==> data.value.fieldsClean)
  {
    data.Some? && data.value.fieldsClean
  }

  /** `post` as saved by a valid edit form: text and group as submitted,
      the image replaced only when a new file is uploaded. */
  function Edited(post: Post, data: PostData): (r: Post)
    ensures r.id == post.id && r.author == post.author
    ensures r.text == data.text && r.group == data.group
    ensures r.image == if data.image.Some? then data.image else post.image
  {
    post.(text := data.text, group := data.group, image := if data.image.Some? then data.image else post.image)
  }

  /** The primary keys of a table of posts. */
  function PostIds(posts: seq<Post>): set<nat> {
    set p | p in posts :: p.id
  }

  /** Two tables with the same keys, position by position, have the same key set. */
  lemma SameKeys(a: seq<Post>, b: seq<Post>)
    requires |a| == |b|
    requires forall j :: 0 <= j < |a| ==> a[j].id == b[j].id
    ensures PostIds(a) == PostIds(b)
  {
  }

  /** The persistent store: the users known to authentication, the groups by
      slug, the posts newest first, the comments oldest first, the Follow
      rows, and the next primary keys to hand out. */
  class Store {
    var users: set<Username>
    var groups: map<Slug, Group>
    var posts: seq<Post>
    var comments: seq<Comment>
    var follows: seq<Follow>
    var nextPostId: nat
    var nextCommentId: nat

    /** The store's integrity constraints: keys are unique and below the
        next key, every reference points at an existing row, and the Follow
        table has neither duplicates nor self-follows. */
    ghost predicate Valid()
      reads this
    {
      && (forall s :: s in groups ==> groups[s].slug == s)
      && (forall p :: p in posts ==> p.id < nextPostId && p.author in users)
      && (forall p :: p in posts ==> p.group.Some? ==> p.group.value in groups)
      && (forall i, j :: 0 <= i < j < |posts| ==> posts[i].id != posts[j].id)
      && (forall c :: c in comments ==> c.id < nextCommentId && c.author in users && c.post in PostIds(posts))
      && (forall i, j :: 0 <= i < j < |comments| ==> comments[i].id != comments[j].id)
      && WellFormed(follows)
      && (forall row :: row in follows ==> row.user in users && row.author in users)
    }

    /** An empty store over the given users and groups. */
    constructor (users: set<Username>, groups: map<Slug, Group>)
      requires forall s :: s in groups ==> groups[s].slug == s
      ensures Valid()
      ensures this.users == users && this.groups == groups
      ensures posts == [] && comments == [] && follows == []
    {
      this.users := users;
      this.groups := groups;
      posts := [];
      comments := [];
      follows := [];
      nextPostId := 1;
      nextCommentId := 1;
    }

    /** Create a post. A valid submission stores one new post, authored by
        the viewer with the submitted text, group and image, and redirects to
        the viewer's profile; a GET or an invalid submission stores nothing
        and renders the form. */
    method PostCreate(viewer: Option<Username>, verb: Verb, data: Option<PostData>) returns (r: Outcome)
      requires Valid()
      requires viewer.Some? ==> viewer.value in users
      modifies this`posts, this`nextPostId
      ensures Valid()
      ensures viewer.None? ==> r == LoginRedirect && posts == old(posts)
      ensures viewer.Some? && verb == HttpPost && PostFormValid(groups, data) ==>
        && r == Redirect(ToProfile(viewer.value))
        && posts == [Post(old(nextPostId), viewer.value, data.value.group, data.value.text, data.value.image)] + old(posts)
        && old(nextPostId) !in PostIds(old(posts))
      ensures viewer.Some? && !(verb == HttpPost && PostFormValid(groups, data)) ==>
        r == Render(PostFormPage(None)) && posts == old(posts)
    {
      if viewer.None? {
        return LoginRedirect;
      }
      if verb == HttpPost && PostFormValid(groups, data) {
        var post := Post(nextPostId, viewer.value, data.value.group, data.value.text, data.value.image);
        ghost var before := posts;
        posts := [post] + posts;
        nextPostId := nextPostId + 1;
        assert forall j :: 0 < j < |posts| ==> posts[j] == before[j - 1];
        assert PostIds(before) <= PostIds(posts);
        return Redirect(ToProfile(viewer.value));
      }
      return Render(PostFormPage(None));
    }

    /** Edit a post. An unknown id is a 404; a viewer who is not the author
        is redirected to the post and nothing changes; the author's valid
        submission replaces that post's text, group and image in place and
        redirects to the post; otherwise the edit form is rendered. No post
        ever changes its key or author, and the number of posts is kept. */
    method PostEdit(viewer: Option<Username>, verb: Verb, id: nat, data: Option<PostData>) returns (r: Outcome)
      requires Valid()
      requires viewer.Some? ==> viewer.value in users
      modifies this`posts
      ensures Valid()
      ensures |posts| == |old(posts)|
      ensures forall j :: 0 <= j < |posts| ==> posts[j].id == old(posts)[j].id && posts[j].author == old(posts)[j].author
      ensures viewer.None? ==> r == LoginRedirect && posts == old(posts)
      ensures viewer.Some? && FindPost(old(posts), id).None? ==> r == NotFound && posts == old(posts)
      ensures viewer.Some? && FindPost(old(posts), id).Some? ==>
        var i := FindPost(old(posts), id).value;
        if viewer.value != old(posts)[i].author then
          r == Redirect(ToPostDetail(id)) && posts == old(posts)
        else if verb == HttpPost && PostFormValid(groups, data) then
          r == Redirect(ToPostDetail(id)) && posts == old(posts)[i := Edited(old(posts)[i], data.value)]
        else
          r == Render(PostFormPage(Some(id))) && posts == old(posts)
    {
      if viewer.None? {
        return LoginRedirect;
      }
      var found := FindPost(posts, id);
      if found.None? {
        return NotFound;
      }
      var i := found.value;
      if viewer.value != posts[i].author {
        return Redirect(ToPostDetail(id));
      }
      if verb == HttpPost && PostFormValid(groups, data) {
        ghost var before := posts;
        posts := posts[i := Edited(posts[i], data.value)];
        SameKeys(before, posts);
        assert forall p :: p in posts ==> p == posts[i] || p in before;
        return Redirect(ToPostDetail(id));
      }
      return Render(PostFormPage(Some(id)));
    }

    /** Comment on a post. An unknown id is a 404; otherwise a valid form
        stores one comment by the viewer on that post, an invalid one stores
        nothing, and either way the viewer is sent back to the post. */
    method AddComment(viewer: Option<Username>, id: nat, data: Option<CommentData>) returns (r: Outcome)
      requires Valid()
      requires viewer.Some? ==> viewer.value in users
      modifies this`comments, this`nextCommentId
      ensures Valid()
      ensures viewer.None? ==> r == LoginRedirect && comments == old(comments)
      ensures viewer.Some? && FindPost(posts, id).None? ==> r == NotFound && comments == old(comments)
      ensures viewer.Some? && FindPost(posts, id).Some? ==>
        && r == Redirect(ToPostDetail(id))
        && comments == if CommentFormValid(data)
                       then old(comments) + [Comment(old(nextCommentId), id, viewer.value, data.value.text)]
                       else old(comments)
    {
      if viewer.None? {
        return LoginRedirect;
      }
      var found := FindPost(posts, id);
      if found.None? {
        return NotFound;
      }
      if CommentFormValid(data) {
        assert posts[found.value] in posts;
        comments := comments + [Comment(nextCommentId, id, viewer.value, data.value.text)];
        nextCommentId := nextCommentId + 1;
      }
      return Redirect(ToPostDetail(id));
    }

    /** Follow an author. An unknown username fails; otherwise a Follow row
        is added unless it would be a self-follow or a duplicate, and the
        viewer is sent to the author's profile. */
    method ProfileFollow(viewer: Option<Username>, username: Username) returns (r: Outcome)
      requires Valid()
      requires viewer.Some? ==> viewer.value in users
      modifies this`follows
      ensures Valid()
      ensures viewer.None? ==> r == LoginRedirect && follows == old(follows)
      ensures viewer.Some? && username !in users ==> r == Failure && follows == old(follows)
      ensures viewer.Some? && username in users ==>
        r == Redirect(ToProfile(username)) && follows == WithFollow(old(follows), viewer.value, username)
    {
      if viewer.None? {
        return LoginRedirect;
      }
      if username !in users {
        return Failure;
      }
      if viewer.value != username && !Following(follows, viewer.value, username) {
        FollowKeepsWellFormed(follows, viewer.value, username);
        follows := follows + [Follow(viewer.value, username)];
      }
      return Redirect(ToProfile(username));
    }

    /** Unfollow an author. An unknown username or a missing Follow row
        fails; otherwise exactly that row is deleted and the viewer is sent
        to the home page. */
    method ProfileUnfollow(viewer: Option<Username>, username: Username) returns (r: Outcome)
      requires Valid()
      requires viewer.Some? ==> viewer.value in users
      modifies this`follows
      ensures Valid()
      ensures viewer.None? ==> r == LoginRedirect && follows == old(follows)
      ensures viewer.Some? && !(username in users && Following(old(follows), viewer.value, username)) ==>
        r == Failure && follows == old(follows)
      ensures viewer.Some? && username in users && Following(old(follows), viewer.value, username) ==>
        && r == Redirect(ToIndex)
        && follows == WithoutFollow(old(follows), viewer.value, username)
        && multiset(follows) == multiset(old(follows)) - multiset{Follow(viewer.value, username)}
    {
      if viewer.None? {
        return LoginRedirect;
      }
      if username !in users {
        return Failure;
      }
      if !Following(follows, viewer.value, username) {
        return Failure;
      }
      UnfollowKeepsWellFormed(follows, viewer.value, username);
      UnfollowRemovesOneRow(follows, viewer.value, username);
      follows := WithoutFollow(follows, viewer.value, username);
      return Redirect(ToIndex);
    }
  }
}
