/** The post handlers as decision chains: each takes what its collaborators
    report (the session claims stored by the middleware, the parsed path id
    and body, the repository's answers) and gives the response together
    with the repository calls it made, in order. The repository is passed as
    the functions it offers; a mutation appears in the calls only after an
    ownership check of the same post by the same user that returned
    `(true, nil)`. */
module PostHandlers {
  import opened Common
  import opened Models
  import opened Http
  import opened PostRepository

  datatype CreatePostRequest = CreatePostRequest(title: string, content: string)
  datatype UpdatePostRequest = UpdatePostRequest(title: string, content: string)

  /** The repository operations a handler invokes. */
  datatype RepoCall =
    | CreateCall(params: CreatePostParams)
    | GetAllCall
    | GetByIdCall(postId: int)
    | GetByUserCall(userId: int)
    | OwnershipCall(postId: int, userId: int)
    | UpdateCall(postId: int, update: UpdatePostParams)
    | DeleteCall(postId: int)
  {
    /** Calls that change or remove an existing post. */
    predicate Mutates()
    {
      UpdateCall? || DeleteCall?
    }
  }

  /** The posts repository, as the answers of its operations. */
  datatype PostRepo = PostRepo(
    createPost: CreatePostParams -> Result<Post, string>,
    getAllPosts: Result<seq<Post>, string>,
    getPostById: int -> Result<Post, string>,
    getPostsByUser: int -> Result<seq<Post>, string>,
    checkOwnership: (int, int) -> Ownership,
    updatePost: (int, UpdatePostParams) -> Option<string>,
    deletePost: int -> Option<string>)

  datatype Outcome = Outcome(response: Response, calls: seq<RepoCall>)

  /** Every mutation in `calls` comes right after an ownership check of the
      same post by the session's user, and that check returned `(true, nil)`. */
  predicate MutationsAuthorized(calls: seq<RepoCall>, claims: Option<Claims>, repo: PostRepo)
  {
    forall k :: 0 <= k < |calls| && calls[k].Mutates() ==>
      && claims.Some?
      && 0 < k
      && calls[k - 1] == OwnershipCall(calls[k].postId, claims.value.userId)
      && repo.checkOwnership(calls[k].postId, claims.value.userId) == Owner
  }

  function Fail(status: int, message: string, calls: seq<RepoCall>): Outcome
  {
    Outcome(Response(status, ErrorBody(message)), calls)
  }

  const InvalidRequest := "Invalid request"
  const InvalidPostId := "Invalid post ID"
  const PostNotFoundMessage := "Post not found"

  /** `CreatePost`: 401 without claims, 400 for an unreadable body, otherwise
      one create call whose owner is the session's user (the body carries no
      owner), answered with 201 and the post, or 500 with the error. */
  function CreatePost(claims: Option<Claims>, body: Option<CreatePostRequest>, repo: PostRepo): (o: Outcome)
    ensures claims.None? ==> o == Outcome(Unauthorized, [])
    ensures claims.Some? && body.None? ==> o == Fail(StatusBadRequest, InvalidRequest, [])
    ensures claims.Some? && body.Some? ==>
              var params := CreatePostParams(claims.value.userId, body.value.title, body.value.content);
              && o.calls == [CreateCall(params)]
              && (repo.createPost(params).Success? ==>
                    o.response == Response(StatusCreated, PostBody(Some(repo.createPost(params).value))))
              && (repo.createPost(params).Failure? ==>
                    o.response == Response(StatusInternalServerError,
                                           ErrorBody("Failed to create post: " + repo.createPost(params).error)))
    ensures MutationsAuthorized(o.calls, claims, repo)
  {
    match claims
    case None => Outcome(Unauthorized, [])
    case Some(c) =>
      match body
      case None => Fail(StatusBadRequest, InvalidRequest, [])
      case Some(req) =>
        var params := CreatePostParams(c.userId, req.title, req.content);
        match repo.createPost(params)
        case Failure(e) => Fail(StatusInternalServerError, "Failed to create post: " + e, [CreateCall(params)])
        case Success(post) => Outcome(Response(StatusCreated, PostBody(Some(post))), [CreateCall(params)])
  }

  /** `GetAllPosts`: the list at the default status, or 500 with the error. */
  function GetAllPosts(repo: PostRepo): (o: Outcome)
    ensures o.calls == [GetAllCall]
    ensures repo.getAllPosts.Success? ==> o.response == Response(StatusOK, PostsBody(repo.getAllPosts.value))
    ensures repo.getAllPosts.Failure? ==>
              o.response == Response(StatusInternalServerError, ErrorBody("Failed to fetch posts: " + repo.getAllPosts.error))
  {
    match repo.getAllPosts
    case Failure(e) => Fail(StatusInternalServerError, "Failed to fetch posts: " + e, [GetAllCall])
    case Success(posts) => Outcome(Response(StatusOK, PostsBody(posts)), [GetAllCall])
  }

  /** `GetPost`: 400 for an id that is not a number, 404 for any repository
      error, otherwise the post at the default status. */
  function GetPost(id: Option<int>, repo: PostRepo): (o: Outcome)
    ensures id.None? ==> o == Fail(StatusBadRequest, InvalidPostId, [])
    ensures id.Some? ==> o.calls == [GetByIdCall(id.value)]
    ensures id.Some? && repo.getPostById(id.value).Failure? ==>
              o.response == Response(StatusNotFound, ErrorBody(PostNotFoundMessage))
    ensures id.Some? && repo.getPostById(id.value).Success? ==>
              o.response == Response(StatusOK, PostBody(Some(repo.getPostById(id.value).value)))
  {
    match id
    case None => Fail(StatusBadRequest, InvalidPostId, [])
    case Some(postId) =>
      match repo.getPostById(postId)
      case Failure(_) => Fail(StatusNotFound, PostNotFoundMessage, [GetByIdCall(postId)])
      case Success(post) => Outcome(Response(StatusOK, PostBody(Some(post))), [GetByIdCall(postId)])
  }

  /** `GetMyPosts`: 401 without claims; otherwise the posts of the session's
      own user, or 500 with the error. */
  function GetMyPosts(claims: Option<Claims>, repo: PostRepo): (o: Outcome)
    ensures claims.None? ==> o == Outcome(Unauthorized, [])
    ensures claims.Some? ==> o.calls == [GetByUserCall(claims.value.userId)]
    ensures claims.Some? && repo.getPostsByUser(claims.value.userId).Success? ==>
              o.response == Response(StatusOK, PostsBody(repo.getPostsByUser(claims.value.userId).value))
    ensures claims.Some? && repo.getPostsByUser(claims.value.userId).Failure? ==>
              o.response == Response(StatusInternalServerError,
                                     ErrorBody("Failed to fetch posts: " + repo.getPostsByUser(claims.value.userId).error))
  {
    match claims
    case None => Outcome(Unauthorized, [])
    case Some(c) =>
      match repo.getPostsByUser(c.userId)
      case Failure(e) => Fail(StatusInternalServerError, "Failed to fetch posts: " + e, [GetByUserCall(c.userId)])
      case Success(posts) => Outcome(Response(StatusOK, PostsBody(posts)), [GetByUserCall(c.userId)])
  }

  /** The chain `UpdatePost` and `DeletePost` share up to the ownership
      verdict: 401, 400, 404 (any ownership error) or 403 (not the owner);
      None when the session's user owns the post. */
  function Guard(claims: Option<Claims>, id: Option<int>, repo: PostRepo, forbidden: string): (g: Option<Outcome>)
    ensures claims.None? ==> g == Some(Outcome(Unauthorized, []))
    ensures claims.Some? && id.None? ==> g == Some(Fail(StatusBadRequest, InvalidPostId, []))
    ensures claims.Some? && id.Some? ==>
              var verdict := repo.checkOwnership(id.value, claims.value.userId);
              var check := [OwnershipCall(id.value, claims.value.userId)];
              && (verdict.err.Some? ==> g == Some(Fail(StatusNotFound, PostNotFoundMessage, check)))
              && (verdict.err.None? && !verdict.isOwner ==> g == Some(Fail(StatusForbidden, forbidden, check)))
              && (g.None? <==> verdict == Owner)
  {
    match claims
    case None => Some(Outcome(Unauthorized, []))
    case Some(c) =>
      match id
      case None => Some(Fail(StatusBadRequest, InvalidPostId, []))
      case Some(postId) =>
        var verdict := repo.checkOwnership(postId, c.userId);
        var check := [OwnershipCall(postId, c.userId)];
        if verdict.err.Some? then Some(Fail(StatusNotFound, PostNotFoundMessage, check))
        else if !verdict.isOwner then Some(Fail(StatusForbidden, forbidden, check))
        else None
  }

  const UpdateForbidden := "You don't have permission to update this post"
  const DeleteForbidden := "You don't have permission to delete this post"

  /** `UpdatePost`: after the guard, 400 for an unreadable body, 500 with the
      error of a failed update, otherwise the post as read back (null when
      that read fails) at the default status. The update is called only
      after the owner's check and only with a readable body. */
  function UpdatePost(claims: Option<Claims>, id: Option<int>, body: Option<UpdatePostRequest>, repo: PostRepo): (o: Outcome)
    ensures MutationsAuthorized(o.calls, claims, repo)
    ensures Guard(claims, id, repo, UpdateForbidden).Some? ==> o == Guard(claims, id, repo, UpdateForbidden).value
    ensures Guard(claims, id, repo, UpdateForbidden).None? ==>
              var check := [OwnershipCall(id.value, claims.value.userId)];
              && (body.None? ==> o == Fail(StatusBadRequest, InvalidRequest, check))
              && (body.Some? ==>
                    var params := UpdatePostParams(body.value.title, body.value.content);
                    && (repo.updatePost(id.value, params).Some? ==>
                          o == Fail(StatusInternalServerError,
                                    "Failed to update post: " + repo.updatePost(id.value, params).value,
                                    check + [UpdateCall(id.value, params)]))
                    && (repo.updatePost(id.value, params).None? ==>
                          o.calls == check + [UpdateCall(id.value, params), GetByIdCall(id.value)]
                          && o.response.status == StatusOK
                          && (repo.getPostById(id.value).Success? ==>
                                o.response.body == PostBody(Some(repo.getPostById(id.value).value)))
                          && (repo.getPostById(id.value).Failure? ==> o.response.body == PostBody(None))))
  {
    match Guard(claims, id, repo, UpdateForbidden)
    case Some(rejected) => rejected
    case None =>
      var check := [OwnershipCall(id.value, claims.value.userId)];
      match body
      case None => Fail(StatusBadRequest, InvalidRequest, check)
      case Some(req) =>
        var params := UpdatePostParams(req.title, req.content);
        var update := check + [UpdateCall(id.value, params)];
        match repo.updatePost(id.value, params)
        case Some(e) => Fail(StatusInternalServerError, "Failed to update post: " + e, update)
        case None =>
          var post := repo.getPostById(id.value);
          var reread := if post.Success? then Some(post.value) else None;
          Outcome(Response(StatusOK, PostBody(reread)), update + [GetByIdCall(id.value)])
  }

  /** `DeletePost`: after the guard, 500 with the error of a failed delete,
      otherwise the success message at the default status. The delete is
      called exactly when the session's user owns the post. */
  function DeletePost(claims: Option<Claims>, id: Option<int>, repo: PostRepo): (o: Outcome)
    ensures MutationsAuthorized(o.calls, claims, repo)
    ensures Guard(claims, id, repo, DeleteForbidden).Some? ==> o == Guard(claims, id, repo, DeleteForbidden).value
    ensures Guard(claims, id, repo, DeleteForbidden).None? ==>
              var calls := [OwnershipCall(id.value, claims.value.userId), DeleteCall(id.value)];
              && o.calls == calls
              && (repo.deletePost(id.value).Some? ==>
                    o.response == Response(StatusInternalServerError,
                                           ErrorBody("Failed to delete post: " + repo.deletePost(id.value).value)))
              && (repo.deletePost(id.value).None? ==>
                    o.response == Response(StatusOK, MessageBody("Post deleted successfully")))
  {
    match Guard(claims, id, repo, DeleteForbidden)
    case Some(rejected) => rejected
    case None =>
      var calls := [OwnershipCall(id.value, claims.value.userId), DeleteCall(id.value)];
      match repo.deletePost(id.value)
      case Some(e) => Fail(StatusInternalServerError, "Failed to delete post: " + e, calls)
      case None => Outcome(Response(StatusOK, MessageBody("Post deleted successfully")), calls)
  }

  /** A user who does not own the post is refused with 403 whatever the
      body says, and no mutation is attempted. */
  lemma NonOwnerForbidden(c: Claims, id: int, b1: Option<UpdatePostRequest>, b2: Option<UpdatePostRequest>, repo: PostRepo)
    requires repo.checkOwnership(id, c.userId) == Ownership(false, None)
    ensures UpdatePost(Some(c), Some(id), b1, repo) == UpdatePost(Some(c), Some(id), b2, repo)
    ensures UpdatePost(Some(c), Some(id), b1, repo).response.status == StatusForbidden
    ensures DeletePost(Some(c), Some(id), repo).response.status == StatusForbidden
    ensures DeletePost(Some(c), Some(id), repo).calls == [OwnershipCall(id, c.userId)]
  {
  }
}
