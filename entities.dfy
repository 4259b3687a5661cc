/** The entities of the blogging platform: users, groups, posts, comments,
    follow rows, the data a client submits through the two forms, and the
    outcome a request handler produces. */
module Entities {

  datatype Option<+T> = None | Some(value: T)

  /** A user is identified by its unique username. */
  type Username = string

  /** A group is identified by its unique slug. */
  type Slug = string

  /** The stored name of an uploaded image file. */
  type Image = string

  datatype Group = Group(title: string, slug: Slug, description: string)

  /** A post; `id` is its surrogate primary key. */
  datatype Post = Post(id: nat, author: Username, group: Option<Slug>, text: string, image: Option<Image>)

  /** A comment on the post whose primary key is `post`. */
  datatype Comment = Comment(id: nat, post: nat, author: Username, text: string)

  /** One row of the Follow table: `user` subscribes to `author`. */
  datatype Follow = Follow(user: Username, author: Username)

  /** What a client submits to the post form. `image` is None when no file
      is uploaded. `fieldsClean` is the framework's verdict on the text and
      image fields, whose validators belong to the model definitions. */
  datatype PostData = PostData(text: string, group: Option<Slug>, image: Option<Image>, fieldsClean: bool)

  /** What a client submits to the comment form. */
  datatype CommentData = CommentData(text: string, fieldsClean: bool)

  datatype Verb = HttpGet | HttpPost

  /** Where a redirect points. */
  datatype Target = ToProfile(username: Username) | ToPostDetail(postId: nat) | ToIndex

  /** One page of a listing: the posts shown, the 1-based page number and
      the number of pages. */
  datatype Page = Page(items: seq<Post>, number: nat, numPages: nat)

  /** What a rendered template receives. */
  datatype Context =
    | PostsPage(page: Page)
    | GroupPage(page: Page, group: Group)
    | ProfilePage(page: Page, author: Username, following: bool)
    | DetailPage(post: Post, comments: seq<Comment>)
    | PostFormPage(editing: Option<nat>)

  /** The response of a handler. `Failure` is an uncaught lookup error
      (a `DoesNotExist` raised by a plain `get`). */
  datatype Outcome =
    | Render(context: Context)
    | Redirect(target: Target)
    | LoginRedirect
    | NotFound
    | Failure
}
