/** The demo service's post list: read whole, grown by appending. */
module PostController {
  import opened Wrappers
  import opened BlogHttp

  const CreatedMessage: string := "Post created successfully"

  /** The body of a create request; an `author` in it is ignored. */
  datatype PostRequestBody = PostRequestBody(title: Field, content: Field, author: Field)

  class PostStore {
    var posts: seq<Post>

    constructor ()
      ensures posts == []
    {
      posts := [];
    }

    /** `getPosts`: every post, in insertion order. */
    method GetPosts() returns (reply: Reply)
      ensures reply.status == 200 && reply.body.PostsBody? && reply.body.posts == posts
    {
      reply := Reply(200, PostsBody(posts));
    }

    /** `createPost`: append one post whose author is the authenticated user, taking title
        and content from the body unchecked. */
    method CreatePost(body: PostRequestBody, user: Claims) returns (reply: Reply)
      modifies this
      ensures |posts| == |old(posts)| + 1 && posts[..|old(posts)|] == old(posts)
      ensures posts[|old(posts)|] == Post(body.title, body.content, user.username)
      ensures reply == Reply(200, MessageBody(CreatedMessage))
    {
      posts := posts + [Post(body.title, body.content, user.username)];
      reply := Reply(200, MessageBody(CreatedMessage));
    }
  }
}
