/** The Follow table and the queries over it: whether a subscription exists,
    the effect of following and unfollowing, and the feed of posts by the
    authors a viewer follows. */
module FollowGraph {
  import opened Entities
  import opened Filtering

  /** A Follow row from `user` to `author` exists. */
  predicate Following(follows: seq<Follow>, user: Username, author: Username): (r: bool)
    ensures r <==> exists i :: 0 <= i < |follows| && follows[i].user == user && follows[i].author == author
  {
    Follow(user, author) in follows
  }

  /** The table's invariant: no row twice, and nobody follows themself. */
  predicate WellFormed(follows: seq<Follow>) {
    && NoDuplicates(follows)
    && forall row :: row in follows ==> row.user != row.author
  }

  /** The table after `user` asks to follow `author`: a row is added only
      for two distinct users not yet linked. */
  function WithFollow(follows: seq<Follow>, user: Username, author: Username): (r: seq<Follow>)
    ensures forall x, y :: Following(r, x, y) <==> Following(follows, x, y) || (x == user && y == author && user != author)
    ensures |r| == if user != author && !Following(follows, user, author) then |follows| + 1 else |follows|
  {
    if user != author && !Following(follows, user, author) then follows + [Follow(user, author)] else follows
  }

  /** The table with every row from `user` to `author` deleted. */
  function WithoutFollow(follows: seq<Follow>, user: Username, author: Username): (r: seq<Follow>)
    ensures forall x, y :: Following(r, x, y) <==> Following(follows, x, y) && (x != user || y != author)
  {
    Filter(follows, row => row != Follow(user, author))
  }

  /** Following keeps the table well formed. */
  lemma FollowKeepsWellFormed(follows: seq<Follow>, user: Username, author: Username)
    requires WellFormed(follows)
    ensures WellFormed(WithFollow(follows, user, author))
  {
  }

  /** Following twice has the effect of following once. */
  lemma FollowIdempotent(follows: seq<Follow>, user: Username, author: Username)
    ensures WithFollow(WithFollow(follows, user, author), user, author) == WithFollow(follows, user, author)
  {
  }

  /** Unfollowing keeps the table well formed. */
  lemma UnfollowKeepsWellFormed(follows: seq<Follow>, user: Username, author: Username)
    requires WellFormed(follows)
    ensures WellFormed(WithoutFollow(follows, user, author))
  {
    FilterNoDuplicates(follows, row => row != Follow(user, author));
  }

  /** In a well-formed table an existing subscription is exactly one row,
      and unfollowing deletes that row and no other. */
  lemma UnfollowRemovesOneRow(follows: seq<Follow>, user: Username, author: Username)
    requires WellFormed(follows)
    requires Following(follows, user, author)
    ensures multiset(WithoutFollow(follows, user, author)) == multiset(follows) - multiset{Follow(user, author)}
    ensures |WithoutFollow(follows, user, author)| == |follows| - 1
  {
    var gone := Follow(user, author);
    var r := WithoutFollow(follows, user, author);
    NoDuplicatesCount(follows, gone);
    forall x ensures multiset(r)[x] == (multiset(follows) - multiset{gone})[x] {
      FilterCount(follows, row => row != gone, x);
    }
    assert multiset(r) == multiset(follows) - multiset{gone};
    assert |multiset(r)| == |multiset(follows)| - 1;
  }

  /** Following a new author and then unfollowing them restores the table. */
  lemma FollowThenUnfollow(follows: seq<Follow>, user: Username, author: Username)
    requires user != author
    requires !Following(follows, user, author)
    ensures WithoutFollow(WithFollow(follows, user, author), user, author) == follows
  {
    var keep := row => row != Follow(user, author);
    FilterAppend(follows, [Follow(user, author)], keep);
    FilterKeepsAll(follows, keep);
    assert Filter([Follow(user, author)], keep) == [];
  }

  /** The posts `viewer` sees in the feed: the join of posts with the Follow
      rows from `viewer` to their author. A post is listed once per matching
      row, as the SQL join without DISTINCT yields it. */
  function FeedJoin(posts: seq<Post>, follows: seq<Follow>, viewer: Username): (r: seq<Post>)
    ensures forall p :: p in r ==> p in posts && Following(follows, viewer, p.author)
  {
    if posts == [] then []
    else
      var n := multiset(follows)[Follow(viewer, posts[0].author)];
      seq(n, _ => posts[0]) + FeedJoin(posts[1..], follows, viewer)
  }

  /** A viewer who follows none of the posts' authors joins no post. */
  lemma {:induction false} FeedJoinEmpty(posts: seq<Post>, follows: seq<Follow>, viewer: Username)
    requires forall p :: p in posts ==> !Following(follows, viewer, p.author)
    ensures FeedJoin(posts, follows, viewer) == []
  {
    if posts != [] {
      assert posts[0] in posts;
      FeedJoinEmpty(posts[1..], follows, viewer);
    }
  }

  /** The selection condition of the feed: the author is followed by `viewer`. */
  function AuthorFollowedBy(follows: seq<Follow>, viewer: Username): Post -> bool {
    (p: Post) => Following(follows, viewer, p.author)
  }

  /** With no duplicate rows, the feed lists exactly the posts whose author
      the viewer follows, each once, in listing order. */
  lemma {:induction false} FeedIsFollowedPosts(posts: seq<Post>, follows: seq<Follow>, viewer: Username)
    requires NoDuplicates(follows)
    ensures FeedJoin(posts, follows, viewer) == Filter(posts, AuthorFollowedBy(follows, viewer))
  {
    if posts != [] {
      var row := Follow(viewer, posts[0].author);
      NoDuplicatesCount(follows, row);
      FeedIsFollowedPosts(posts[1..], follows, viewer);
      if row in follows {
        assert seq(1, _ => posts[0]) == [posts[0]];
      } else {
        assert seq(0, _ => posts[0]) == [];
      }
    }
  }
}
