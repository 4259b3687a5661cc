/** Request sequences taken from the project's test suite, replayed against
    the handlers' contracts: each postcondition below is what the test
    asserts, derived from the specifications alone. */
module Scenarios {
  import opened Entities
  import opened Filtering
  import opened FollowGraph
  import opened Queries
  import opened Handlers

  /** An anonymous submission of the post form is sent to log in and
      stores no post. */
  method GuestCannotCreatePost() returns (r: Outcome, count: nat)
    ensures r == LoginRedirect
    ensures count == 0
  {
    var store := new Store({"leo"}, map["test_slug" := Group("Test group", "test_slug", "About the group")]);
    r := store.PostCreate(None, HttpPost, Some(PostData("Test text", Some("test_slug"), None, true)));
    count := |store.posts|;
  }

  /** A signed-in user's valid submission stores exactly one post carrying
      the submitted text, group and image, authored by that user. */
  method AuthorCreatesPost() returns (r: Outcome, count: nat, post: Post)
    ensures r == Redirect(ToProfile("leo"))
    ensures count == 1
    ensures post.author == "leo" && post.text == "Test text"
    ensures post.group == Some("test_slug") && post.image == Some("posts/small.gif")
  {
    var store := new Store({"leo"}, map["test_slug" := Group("Test group", "test_slug", "About the group")]);
    r := store.PostCreate(Some("leo"), HttpPost, Some(PostData("Test text", Some("test_slug"), Some("posts/small.gif"), true)));
    count := |store.posts|;
    post := store.posts[0];
  }

  /** The author edits their post into another group: still one post, with
      the new text and group and the same author. */
  method AuthorEditsPost() returns (r: Outcome, count: nat, post: Post)
    ensures r.Redirect? && r.target.ToPostDetail?
    ensures count == 1
    ensures post.text == "Updated text" && post.group == Some("test_slug2") && post.author == "leo"
  {
    var groups := map["test_slug" := Group("Test group", "test_slug", "About the group"),
                      "test_slug2" := Group("Test group 2", "test_slug2", "About group 2")];
    var store := new Store({"leo"}, groups);
    var created := store.PostCreate(Some("leo"), HttpPost, Some(PostData("Test text", Some("test_slug"), None, true)));
    var id := store.posts[0].id;
    r := store.PostEdit(Some("leo"), HttpPost, id, Some(PostData("Updated text", Some("test_slug2"), None, true)));
    count := |store.posts|;
    post := store.posts[0];
  }

  /** A signed-in user's comment is stored with its text and author; an
      anonymous one is not. */
  method CommentsNeedLogin() returns (count: nat, comment: Comment, guestCount: nat)
    ensures count == 1
    ensures comment.text == "Is this a text?" && comment.author == "Vasyliy"
    ensures guestCount == 1
  {
    var store := new Store({"Vasyliy"}, map[]);
    var created := store.PostCreate(Some("Vasyliy"), HttpPost, Some(PostData("A plain text post.", None, None, true)));
    var id := store.posts[0].id;
    var r := store.AddComment(Some("Vasyliy"), id, Some(CommentData("Is this a text?", true)));
    count := |store.comments|;
    comment := store.comments[0];
    r := store.AddComment(None, id, Some(CommentData("A guest comment", true)));
    guestCount := |store.comments|;
  }

  /** Following an author creates one Follow row; following again adds none. */
  method FollowTwice() returns (once: nat, twice: nat)
    ensures once == 1 && twice == 1
  {
    var store := new Store({"Agent_Smit", "Neo"}, map[]);
    var r := store.ProfileFollow(Some("Agent_Smit"), "Neo");
    once := |store.follows|;
    r := store.ProfileFollow(Some("Agent_Smit"), "Neo");
    twice := |store.follows|;
  }

  /** A follower sees the author's post in the feed; after unfollowing, the
      feed is empty. */
  method FeedFollowsSubscriptions() returns (before: nat, after: nat)
    ensures before == 1 && after == 0
  {
    var store := new Store({"Agent_Smit", "Neo"}, map[]);
    var created := store.PostCreate(Some("Neo"), HttpPost, Some(PostData("Test text", None, None, true)));
    var post := store.posts[0];
    assert store.posts == [post] && post.author == "Neo";
    var r := store.ProfileFollow(Some("Agent_Smit"), "Neo");
    assert store.follows == [Follow("Agent_Smit", "Neo")];
    FeedIsFollowedPosts(store.posts, store.follows, "Agent_Smit");
    assert FeedJoin(store.posts, store.follows, "Agent_Smit") == [post] by {
      assert AuthorFollowedBy(store.follows, "Agent_Smit")(post);
      assert Filter([post], AuthorFollowedBy(store.follows, "Agent_Smit")) == [post];
    }
    var feed := FollowIndex(store.posts, store.follows, Some("Agent_Smit"), None);
    before := |feed.context.page.items|;
    r := store.ProfileUnfollow(Some("Agent_Smit"), "Neo");
    assert !Following(store.follows, "Agent_Smit", "Neo");
    FeedEmptyWithoutSubscriptions(store.posts, store.follows, "Agent_Smit", None);
    feed := FollowIndex(store.posts, store.follows, Some("Agent_Smit"), None);
    after := |feed.context.page.items|;
  }
}
