/** The response a handler emits: an HTTP status and a JSON body. A handler
    that calls `c.JSON` without `c.Status` answers with the framework's
    default status, 200. */
module Http {
  import opened Common
  import opened Models

  const StatusOK := 200
  const StatusCreated := 201
  const StatusBadRequest := 400
  const StatusUnauthorized := 401
  const StatusForbidden := 403
  const StatusNotFound := 404
  const StatusConflict := 409
  const StatusInternalServerError := 500

  /** The JSON bodies the handlers send. `PostBody(None)` is `{"post": null}`.
      `MeBody` has no password field: the handler never puts it there. */
  datatype Body =
    | ErrorBody(error: string)
    | PostBody(post: Option<Post>)
    | PostsBody(posts: seq<Post>)
    | MessageBody(message: string)
    | AuthBody(id: int, email: string, name: string)
    | MeBody(id: int, email: string, name: string, image: string, role: string)

  datatype Response = Response(status: int, body: Body)

  /** The cookie that carries the session token. */
  const SessionCookieName := "nimbledb-test_token"

  const Unauthorized := Response(StatusUnauthorized, ErrorBody("Unauthorized"))
}
