# Yatube posts: a verified model of the request handlers

Yatube is a small blogging platform. Users write posts, optionally in a
group, and comment on posts. They can also follow authors and read a
personal feed of those authors' posts. This project models the request
handlers of `yatube/posts/views.py` in Dafny, over an in-memory store, and
proves what the handlers promise about that store.

- `entities.dfy` (module `Entities`): users (identified by their unique
  username), groups (keyed by slug), posts, comments, Follow rows, submitted
  form data, and the outcome of a handler. The outcomes are `Render(context)`,
  `Redirect(target)`, `LoginRedirect`, `NotFound` (an HTTP 404) and `Failure`.
  `Failure` is the uncaught `DoesNotExist` raised by a plain `objects.get`.
- `filtering.dfy` (module `Filtering`): an order-preserving `Filter`. Every
  filtered queryset of the views has this shape.
- `paging.dfy` (module `Paging`): the paginator, with ten posts per page.
- `follow_graph.dfy` (module `FollowGraph`): the Follow table as a sequence of
  rows. It defines the table's invariant (no duplicate row, no self-follow),
  the effect of following and unfollowing, and the follow feed as the SQL
  join it is.
- `queries.dfy` (module `Queries`): the read-only views `index`,
  `group_posts`, `profile`, `post_detail` and `follow_index`. They are
  functions over the store's tables, passed in as values.
- `handlers.dfy` (module `Handlers`): class `Store`, holding the tables as
  fields, with the mutating views `post_create`, `post_edit`, `add_comment`,
  `profile_follow` and `profile_unfollow` as methods. `Store.Valid()` states
  the store's integrity constraints:
  - keys are unique;
  - every author, group, post and followed user that a row refers to exists;
  - the Follow table is well formed.
  Every method keeps `Valid()`.
- `scenarios.dfy` (module `Scenarios`): request sequences from the
  project's test suite, replayed against the handlers' contracts.

The `login_required` guard is the first statement of each guarded handler.
An anonymous viewer (`viewer == None`) gets `LoginRedirect`, and every table
stays as it was. Each method's frame (`modifies this`posts` and so on) also
states which tables a handler may touch at all.

Posts are kept newest first: `post_create` puts the new post at the head of
the table. Comments are kept in creation order. Form validation belongs to
the framework, so it is abstract:
- `fieldsClean` is the framework's verdict on the text and image fields.
- A post form is also invalid when it names a group that does not exist.
  Django's model choice field rejects such a group, and this is what keeps
  a post's group reference valid.

Behaviour of the code worth noting:
- `profile_unfollow` fails when there is no Follow row. It is not a no-op.
- `profile_follow` and `profile_unfollow` look the author up with
  `User.objects.get`. So an unknown username is a `Failure`, not a 404.
- `profile_unfollow` redirects to the index, not to the profile.
- `post_detail` builds the comment form for every viewer, signed in or not.

## Model

| member | source | states |
|---|---|---|
| `Filtering.Filter` | yatube/posts/views.py:29 | the result holds exactly the elements of the input that satisfy the condition, and is no longer than the input |
| `Filtering.FilterAppend` | yatube/posts/views.py:49 | filtering a table with rows added at one end equals filtering the old table and the new rows separately |
| `Paging.PageCount` | yatube/posts/views.py:12 | the page count covers the whole listing, its last page is non-empty, and an empty listing has one page |
| `Paging.Paginate` | yatube/posts/views.py:12 | a page holds at most 10 posts; it is a contiguous slice of the listing at offset (number-1)*10; every page before the last is full; a missing parameter selects page 1 and one out of range selects the last page |
| `Paging.FirstPageIsPrefix` | yatube/posts/tests/test_views.py:158-180 | without a page parameter a listing shows its first ten posts, or all of them if it has fewer |
| `Paging.ItemOnItsPage` | yatube/posts/views.py:12 | the post at position i of a listing is entry i mod 10 of page i div 10 + 1, so no post is skipped |
| `Paging.SixteenPostsSplit` | yatube/posts/tests/test_views.py:182-204 | sixteen posts make two pages: ten on page 1 and six on page 2 |
| `FollowGraph.Following` | yatube/posts/views.py:121-123 | a subscription exists exactly when the table holds a Follow row from that user to that author, as `Follow.objects.filter(user=…, author=…).exists()` asks here and in `profile` at yatube/posts/views.py:32-34 |
| `FollowGraph.WithFollow` | yatube/posts/views.py:119-124 | after a follow, the (user, author) subscription exists exactly when it existed before or the two users differ; no other pair changes; a row is added only for a new pair of distinct users |
| `FollowGraph.WithoutFollow` | yatube/posts/views.py:132 | after an unfollow, the (user, author) subscription is gone and every other pair is as before |
| `FollowGraph.FollowKeepsWellFormed` | yatube/posts/views.py:121-124 | a follow never creates a duplicate row or a self-follow |
| `FollowGraph.FollowIdempotent` | yatube/posts/views.py:121-124 | following twice leaves the same table as following once |
| `FollowGraph.UnfollowKeepsWellFormed` | yatube/posts/views.py:132 | an unfollow keeps the table free of duplicates and self-follows |
| `FollowGraph.UnfollowRemovesOneRow` | yatube/posts/views.py:132 | in a well-formed table an unfollow deletes exactly the one (user, author) row and leaves the multiset of other rows unchanged |
| `FollowGraph.FollowThenUnfollow` | yatube/posts/views.py:117-133 | following a new author and then unfollowing them restores the table exactly |
| `FollowGraph.FeedJoin` | yatube/posts/views.py:109-112 | every post the join yields is a stored post whose author the viewer follows |
| `FollowGraph.FeedJoinEmpty` | yatube/posts/tests/test_views.py:274-277 | a viewer who follows none of the posts' authors joins no post |
| `FollowGraph.FeedIsFollowedPosts` | yatube/posts/views.py:109-112 | when Follow rows are unique, the join equals the posts whose author the viewer follows, each listed once and in listing order |
| `Queries.FindPost` | yatube/posts/views.py:75 | the lookup finds nothing exactly when no post has the key; otherwise it returns the position of the first post with that key |
| `Queries.Index` | yatube/posts/views.py:10-13 | the uncached home query always renders a page of at most ten stored posts; without a page parameter it shows the newest ten |
| `Queries.IndexListingComplete` | yatube/posts/views.py:11-12 | each stored post appears on some page of the uncached home listing |
| `Queries.GroupPosts` | yatube/posts/views.py:16-24 | an unknown slug gives NotFound, and only then; otherwise it renders that group with at most ten posts, all stored and all in that group |
| `Queries.Profile` | yatube/posts/views.py:27-43 | an unknown username gives NotFound, and only then; otherwise it renders at most ten stored posts of that author, and `following` holds iff the viewer is signed in and a Follow(viewer, author) row exists |
| `Queries.PostDetail` | yatube/posts/views.py:46-55 | an unknown id gives NotFound, and only then; otherwise it renders the stored post with that key and exactly the comments on it |
| `Queries.FollowIndex` | yatube/posts/views.py:107-114 | an anonymous viewer gets a login redirect, and only then; a signed-in viewer gets at most ten stored posts, each by an author the viewer follows |
| `Queries.ListedOnSomePage` | yatube/posts/views.py:12 | each post of a listing appears on some page of it |
| `Queries.GroupListingComplete` | yatube/posts/views.py:17-19 | each post of an existing group appears on some page of the group listing |
| `Queries.ProfileListingComplete` | yatube/posts/views.py:28-30 | each post of an existing author appears on some page of the profile |
| `Queries.FeedComplete` | yatube/posts/views.py:109-113 | when Follow rows are unique, each post by a followed author appears on some page of the feed |
| `Queries.NewestPostShownFirst` | yatube/posts/views.py:59-69 | a newly created post comes first in the uncached home query, on its author's profile and on its group's listing |
| `Queries.FollowingFlagTracksTable` | yatube/posts/views.py:31-37 | after following a different user the profile's flag is set; after unfollowing it is cleared |
| `Queries.FeedAfterUnfollow` | yatube/posts/tests/test_views.py:263-272 | after an unfollow the feed shows none of that author's posts |
| `Queries.FeedEmptyWithoutSubscriptions` | yatube/posts/tests/test_views.py:274-277 | a viewer who follows none of the posts' authors sees an empty feed |
| `Queries.NewCommentShownLast` | yatube/posts/views.py:96-104 | a comment added to an existing post is listed last among that post's comments on its detail page |
| `Handlers.PostFormValid` | yatube/posts/views.py:65 | a post form is valid exactly when data was submitted, its text and image fields are clean, and the chosen group, if any, exists; `post_edit` applies the same check at yatube/posts/views.py:84 |
| `Handlers.CommentFormValid` | yatube/posts/views.py:99 | a comment form is valid exactly when data was submitted and its text field is clean |
| `Handlers.Edited` | yatube/posts/views.py:78-85 | a saved edit keeps the post's key and author, takes the submitted text and group, and replaces the image only when a new file is uploaded |
| `Handlers.Store.PostCreate` | yatube/posts/views.py:58-70 | anonymous: login redirect and no change; valid POST: exactly one new post with a fresh key, the viewer as author and the submitted text, group and image, then a redirect to the viewer's profile; GET or invalid POST: the form is rendered and nothing is stored |
| `Handlers.Store.PostEdit` | yatube/posts/views.py:73-92 | anonymous: login redirect; unknown id: NotFound; non-author: redirect to the post with no change; author with valid POST: only that post's text, group and image change; keys, authors and the post count never change |
| `Handlers.Store.AddComment` | yatube/posts/views.py:95-104 | anonymous: login redirect; unknown post: NotFound; otherwise a valid form appends exactly one comment by the viewer on that post and an invalid one stores nothing, and either way it redirects to the post |
| `Handlers.Store.ProfileFollow` | yatube/posts/views.py:117-125 | anonymous: login redirect; unknown username: Failure with no change; otherwise the table becomes `WithFollow` of the old table, with no self-follow and no duplicate, and it redirects to the author's profile |
| `Handlers.Store.ProfileUnfollow` | yatube/posts/views.py:128-133 | anonymous: login redirect; unknown username or no Follow row: Failure with no change; otherwise exactly that row is deleted and it redirects to the index |
| `Scenarios.GuestCannotCreatePost` | yatube/posts/tests/test_forms.py:76-92 | an anonymous post submission is redirected to log in and stores no post |
| `Scenarios.AuthorCreatesPost` | yatube/posts/tests/test_forms.py:43-74 | a valid submission stores one post with the submitted text, group and image, by the submitting user |
| `Scenarios.AuthorEditsPost` | yatube/posts/tests/test_forms.py:121-134 | the author's edit leaves one post with the new text and group and the same author |
| `Scenarios.CommentsNeedLogin` | yatube/posts/tests/test_forms.py:150-175 | a signed-in user's comment is stored with its text and author; an anonymous one is not |
| `Scenarios.FollowTwice` | yatube/posts/views.py:121-124 | following creates one Follow row and following again adds none, extending the single follow of yatube/posts/tests/test_views.py:253-261 |
| `Scenarios.FeedFollowsSubscriptions` | yatube/posts/tests/test_views.py:263-277 | a follower's feed shows the author's post, and it is empty after unfollowing |

## Left out

- The page cache on `index` (`cache_page(60 * 20)`) is not modelled. It depends on a wall clock and on framework middleware. `Queries.Index` is the uncached query: the real home page can show a stale listing for up to 20 minutes after a post is created, until the cache entry expires or is cleared.
- Template rendering, the URLs of redirects and the login page's `next=` parameter are not modelled. Redirects are reduced to their target, and contexts to the values the views put in them. The form objects (their errors, the pre-filled edit form, the comment form on the detail page) are left out of the contexts.
- The pagination helper `get_paginators_page` (module `utils`) is not part of this model. `Paging.Paginate` follows Django's `Paginator(…, 10).get_page`: a missing or non-integer parameter selects page 1, an out-of-range number selects the last page, and an empty listing has one empty page.
- Ordering by publication date is the store's sequence order. New posts go to the head, comments to the end. Timestamps and the ORM's `select_related` are not modelled.
- Field validation (`forms.py`, and the model definitions that constrain `text` and `image`) is the abstract `fieldsClean` flag. Image upload, file storage and the "clear image" checkbox of the edit form are not modelled. An edit without a new file keeps the old image.
- Users are created and authenticated outside these views. A signed-in viewer is required to be a stored user, which the session guarantees.
- `Handlers.Store.ProfileUnfollow`: `Follow.objects.get` also raises `MultipleObjectsReturned` on duplicate rows. The store's invariant rules duplicates out, so this path is not modelled.
- The check-then-create race in `profile_follow` is not modelled. It needs concurrent requests, and the model is sequential.
- `admin.py` (admin-panel configuration) and the test files as code are not modelled. The tests serve only as the source of `Scenarios`.
