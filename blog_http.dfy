/** The values the demo blog service exchanges: JSON body fields, token payloads, posts and
    replies. */
module BlogHttp {
  import opened Wrappers

  /** A field of a JSON request body: absent (`undefined`) or a string. */
  type Field = Option<string>

  /** The payload signed into, and recovered from, a token. */
  datatype Claims = Claims(username: Field)

  datatype Post = Post(title: Field, content: Field, author: Field)

  datatype Body = MessageBody(message: string) | TokenBody(token: string) | PostsBody(posts: seq<Post>)

  /** A JSON reply with its HTTP status; `res.json` alone replies with 200. */
  datatype Reply = Reply(status: nat, body: Body)
}
