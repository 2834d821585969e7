# nimbledb-demo backend core, in Dafny

A model of the Go backend of nimbledb-demo: a small blogging API over a
NimbleDB store. The model covers:

- the users and posts repositories, which build SQL text with quote-doubling
  escaping, decode untyped result rows by position, and check post ownership;
- the database service derivations (`Execute`, `QueryRow`, the `New`
  singleton, `Close`, the `Health` report);
- the post and auth HTTP handlers as early-return decision chains;
- `AuthMiddleware`;
- the route table that decides which endpoints sit behind the middleware.

Modules, in dependency order:

- `Common`: the result and option types, untyped cells (`IntCell`,
  `StrCell`, `NullCell`), substring search, ASCII lower-casing and decimal
  formatting.
- `Models`: `Post`, `User`, `CreatePostParams`, `UpdatePostParams`,
  `CreateUserParams` and the token `Claims`.
- `Escape`: `escapeString`, as a loop method proved against the function
  `Escaped`. Beside it are its inverse `Unescape` and `ReadLiteral`, a
  reading of a quoted SQL literal in which a doubled quote is the only
  escape and a backslash is an ordinary character. These give the round
  trip, injectivity, and, under that reading of literals, the absence of
  literal break-out.
- `Database`: the client's `Query` is a function from statement text to
  the store's reply (`QueryFn`). `Execute` and `QueryRow` are derived from
  it. `Instance` is the package-level singleton slot that `New` fills. `Close`
  and `Health` map the client's outcome.
- `UserRepository` and `PostRepository`: each operation is a function of
  `QueryFn`. The exact statement text is written out, so the lemmas can say
  which caller text sits in which literal. The list loop of `GetAllPosts`
  and `GetPostsByUserID` is the method `CollectPosts`, proved against the
  specification function `PostsFrom`.
- `Store`: the two tables as classes holding maps from id to row. Their
  methods change the table the way the repository statements do, given the
  store's reply.
- `Http`: status codes, response bodies and the session cookie name.
- `PostHandlers`, `AuthHandlers`, `Middleware`: each handler is a function
  from its collaborators' answers to the response. The outcome also records
  the repository calls made, in order, and for the auth handlers the cookie
  set.
- `Routes`: the route table in registration order, first-match dispatch,
  and end-to-end serving of the posts endpoints.

The central safety result is `Routes.MutationsNeedOwnerSession`. Whatever
the request, an update or a delete reaches the posts repository only if two
things hold:

- the request carries a non-empty session cookie whose token validates;
- the ownership check for the validated user returned `(true, nil)` for
  that very post.

## Behaviour worth knowing

- A successful `Register` answers at the framework's default status 200,
  not 201 (backend/internal/handlers/auth.go:96).
- The avatar URL is assembled in the `Register` handler, not in the users
  repository.
- `Register` treats a creation error as a conflict only when its raw text
  contains "duplicate" or "unique", case-sensitively. "already exists" is
  not one of the tested texts.
- A post id with no row fails `CheckPostOwnership` with `QueryRow`'s "no
  rows found". The "post not found" text appears only for a returned row
  with no cells. Both reach the client as 404 "Post not found".
- Tables are created by explicit `InitTable` calls, not lazily on first use.
- The users table declares only `PRIMARY KEY (id)`
  (backend/internal/repository/user_repository.go:20); nothing makes `email`
  unique. A second registration with a taken email is stored unless the
  store itself reports a "duplicate" or "unique" error, so the 409 of
  `Register` (backend/internal/handlers/auth.go:68) depends on the store.
  `Store.SecondRegistrationStored` shows the table accepting it.

## Model

| member | source | states |
|---|---|---|
| Escape.EscapeString | backend/internal/repository/user_repository.go:118-129 | the loop's result is `Escaped(s)`: every `'` doubled, every other character kept, in order |
| Escape.EscapedLength | backend/internal/repository/user_repository.go:121-127 | the escaped text is as long as the input plus the number of quotes in it |
| Escape.EscapedWithoutQuote | backend/internal/repository/user_repository.go:121-127 | text without a quote is returned unchanged |
| Escape.UnescapeEscaped | backend/internal/repository/user_repository.go:118-129 | collapsing `''` back to `'` after escaping gives back the original text |
| Escape.EscapedInjective | backend/internal/repository/user_repository.go:118-129 | two texts with equal escapings are equal |
| Escape.ReadEscapedLiteral | backend/internal/repository/user_repository.go:118-129 | an escaped value followed by a closing quote is read by the lexer as exactly that value, resuming right after the quote |
| Database.Execute | backend/internal/database/database.go:86-89 | fails exactly when the query fails, with its error; rows are discarded |
| Database.QueryRow | backend/internal/database/database.go:91-100 | propagates the query error, gives "no rows found" for an empty result, otherwise the first row |
| Database.ExecuteAgreesWithQueryRow | backend/internal/database/database.go:86-100 | a row implies no error; a shared error is the same in both; after success there is no first row exactly when no rows came back |
| Database.Instance.New | backend/internal/database/database.go:27-44 | with an instance present it returns that instance unchanged, ignoring `addr`; otherwise it records and returns a new connected service; a failed connection is excluded by precondition |
| Database.FirstCallerWins | backend/internal/database/database.go:27-30 | two calls with different addresses return the same service, the first caller's |
| Database.Close | backend/internal/database/database.go:74-80 | without a client it returns nil and calls nothing; with one it returns the client's close result |
| Database.Health | backend/internal/database/database.go:57-69 | status "up" exactly when the ping returned nil first; a ping error gives "down" with "db down: "+error; the deadline gives "down" with "health check timeout" |
| UserRepository.TolerateExists | backend/internal/repository/user_repository.go:22-33 | no error, or one whose lower-cased text contains "exists" or "duplicate", becomes success; any other error comes back unchanged |
| UserRepository.InitTable | backend/internal/repository/user_repository.go:19-34 | creating the users table succeeds exactly when the CREATE succeeds or fails with an exists-class error; otherwise it returns that error |
| UserRepository.CreateUser | backend/internal/repository/user_repository.go:36-65 | a failed INSERT gives its error and no user; a successful one gives the caller's unescaped fields, role "user" and the id of the statement |
| UserRepository.InsertUserEmailLiteral | backend/internal/repository/user_repository.go:41-49 | the store reads the INSERT's email literal back as the caller's email and resumes at the rest of the statement |
| UserRepository.InsertUserTailLiterals | backend/internal/repository/user_repository.go:46-49 | after the email, the password, name and image literals read back as the caller's values and the role literal as "user", each ending where intended; the creation time holds no quote |
| UserRepository.InsertUserIdOutsideLiterals | backend/internal/repository/user_repository.go:46-49 | the `%d` id cannot open a literal: before the email, the INSERT holds exactly the one quote that opens the email literal |
| UserRepository.EmailQueryLiteral | backend/internal/repository/user_repository.go:68-69 | the lookup text is the fixed prefix followed by one literal that reads back as exactly the email, with nothing after it |
| UserRepository.DecodeUser | backend/internal/repository/user_repository.go:76-90 | fewer than 7 cells is "invalid row data"; a decoded user's row layout equals the first 7 cells, cell i giving field i and `created_at` from cell 6 |
| UserRepository.DecodeUserRow | backend/internal/repository/user_repository.go:80-90 | a stored user's row decodes back to that user, whatever extra cells follow |
| UserRepository.GetUserByEmail | backend/internal/repository/user_repository.go:67-91 | the store's error passes through; no rows is "no rows found"; a short row is "invalid row data"; otherwise the result is the first row decoded by position, the user when it is well-typed |
| UserRepository.GetUserByEmailReturnsStoredUser | backend/internal/repository/user_repository.go:80-90 | a stored user in the first row, with any extra cells, is returned as that user |
| UserRepository.GetUserByEmailReadsOneQuery | backend/internal/repository/user_repository.go:68-71 | the result depends only on the store's reply to the escaped-email query |
| UserRepository.GetUserById | backend/internal/repository/user_repository.go:93-116 | as by email, for the numeric id query: errors pass through, otherwise the first row decoded by position |
| UserRepository.GetUserByIdReturnsStoredUser | backend/internal/repository/user_repository.go:105-115 | a stored user in the first row, with any extra cells, is returned as that user |
| PostRepository.InitTable | backend/internal/repository/post_repository.go:19-33 | creating the posts table succeeds exactly when the CREATE succeeds or fails with an exists-class error; otherwise it returns that error |
| PostRepository.InsertPostLiterals | backend/internal/repository/post_repository.go:39-45 | the INSERT's title and content literals read back as the caller's title and content, each ending where intended |
| PostRepository.InsertPostNumbersOutsideLiterals | backend/internal/repository/post_repository.go:42-45 | the `%d` fields cannot open a literal: before the title there is exactly the opening quote, and after the content literal no quote |
| PostRepository.NewPost | backend/internal/repository/post_repository.go:52-59 | the returned post has the statement's id, the owner from the params, the unescaped title and content, equal creation and update times and no author fields |
| PostRepository.CreatePost | backend/internal/repository/post_repository.go:35-60 | a failed INSERT gives its error; otherwise a post with the params' owner, the original title and content, and createdAt == updatedAt |
| PostRepository.DecodePost | backend/internal/repository/post_repository.go:110-121 | fewer than 6 cells is "invalid row data"; a decoded post's layout equals the first 6 cells and has no author fields |
| PostRepository.DecodePostRow | backend/internal/repository/post_repository.go:114-121 | a stored post's row decodes back to that post |
| PostRepository.WithAuthor | backend/internal/repository/post_repository.go:123-129 | a failed lookup or one of fewer than 3 cells leaves the post as it was; a lookup of 3 or more cells succeeds exactly when the first 3 are text, and then only the author fields change, to those cells; the only failure is "unexpected cell type" |
| PostRepository.LongRowsInOrder | backend/internal/repository/post_repository.go:73-77 | the kept rows are a subsequence of the query's rows, in order, never more of them, and all rows are kept when none is short |
| PostRepository.PostsFromEntries | backend/internal/repository/post_repository.go:73-99 | a list is produced exactly when every kept row yields an entry, and it is those entries, one per kept row, in row order |
| PostRepository.PostsFromFirstFailure | backend/internal/repository/post_repository.go:73-99 | a failing list fails with the error of the first kept row whose entry fails, after all earlier ones succeeded |
| PostRepository.PostsFromWithoutLookup | backend/internal/repository/post_repository.go:144-160 | without the author lookup, a list depends on the rows alone |
| PostRepository.CollectPosts | backend/internal/repository/post_repository.go:73-97 | the row loop with its skip and append yields exactly `PostsFrom(rows)` |
| PostRepository.GetAllPosts | backend/internal/repository/post_repository.go:62-100 | the query's error, or the list `PostsFrom` gives for its rows with author lookup |
| PostRepository.GetPostsByUserID | backend/internal/repository/post_repository.go:134-161 | the query's error, or the list `PostsFrom` gives for its rows without author lookup |
| PostRepository.PostsByUserWithoutAuthors | backend/internal/repository/post_repository.go:144-160 | every post of a user's list has empty author fields, and the list depends only on the reply to its own query |
| PostRepository.GetPostByID | backend/internal/repository/post_repository.go:102-132 | the store's error passes through; no rows is "no rows found"; a short row is "invalid row data"; a first row of 6 or more cells gives its positional reading followed by the best-effort author lookup; a failed or short author lookup leaves author fields empty |
| PostRepository.GetPostByIDReturnsStoredPost | backend/internal/repository/post_repository.go:114-131 | a stored post in the first row is returned unchanged when the author lookup fails or is short, and with the author's name, email and image when it gives three text cells |
| PostRepository.UpdateLiterals | backend/internal/repository/post_repository.go:166-171 | the UPDATE's title and content literals read back as the caller's title and content |
| PostRepository.UpdateTailHasNoQuote | backend/internal/repository/post_repository.go:169-172 | after the content literal, the `%d` time and id of the UPDATE hold no quote |
| PostRepository.UpdatePost | backend/internal/repository/post_repository.go:163-175 | the result is the store's verdict on the UPDATE of that id |
| PostRepository.DeletePost | backend/internal/repository/post_repository.go:177-180 | the result is the store's verdict on the DELETE of that id |
| PostRepository.OwnershipFromRow | backend/internal/repository/post_repository.go:185-195 | an error passes through with false; an empty row is "post not found"; the verdict is `(true, nil)` exactly when the first cell is the candidate's id |
| PostRepository.CheckPostOwnership | backend/internal/repository/post_repository.go:182-196 | a query error gives `(false, err)`; no row gives `(false, "no rows found")`; `(true, nil)` exactly when the stored owner equals the candidate; an integer owner cell gives `(owner == userId, nil)` |
| PostRepository.NonOwnerIsFalseNil | backend/internal/repository/post_repository.go:190-195 | a stored post owned by another user gives `(false, nil)`, with no error |
| PostRepository.NumericStatementsHaveNoLiteral | backend/internal/repository/post_repository.go:178-183 | the DELETE and the ownership query hold no quote, so no caller value places a literal in them |
| PostRepository.AtMostOneOwner | backend/internal/repository/post_repository.go:194-195 | two different candidates are never both owners |
| Store.PostTable.CreatePost | backend/internal/repository/post_repository.go:35-60 | on success the table gains exactly the new row, holding the unescaped title and content, with equal times; on failure it is unchanged |
| Store.PostTable.UpdatePost | backend/internal/repository/post_repository.go:163-175 | on success only title, content and updated_at of row `id` change; owner, creation time and all other rows stay |
| Store.PostTable.DeletePost | backend/internal/repository/post_repository.go:177-180 | on success exactly row `id` is removed |
| Store.CreatePostAgrees | backend/internal/repository/post_repository.go:35-60 | fed the reply to the repository's INSERT, the table returns what `PostRepository.CreatePost` returns |
| Store.UpdatePostAgrees | backend/internal/repository/post_repository.go:163-175 | fed the reply to the repository's UPDATE, the table returns what `PostRepository.UpdatePost` returns |
| Store.DeletePostAgrees | backend/internal/repository/post_repository.go:177-180 | fed the reply to the repository's DELETE, the table returns what `PostRepository.DeletePost` returns |
| Store.PostTable.CheckPostOwnership | backend/internal/repository/post_repository.go:182-196 | for a stored post the verdict is `(owner == userId, nil)`; otherwise "no rows found" |
| Store.PostTable.GetPostByID | backend/internal/repository/post_repository.go:102-121 | a stored row decodes to its post; a missing id is "no rows found" |
| Store.OwnershipAfterCreate | backend/internal/repository/post_repository.go:182-196 | in any table, after A creates post p, the check gives `(true, nil)` for A and `(false, nil)` for any other user; no other row changes |
| Store.StoreRoundTrip | backend/internal/repository/post_repository.go:163-175 | in any table, title and content holding quotes read back exactly; an update swapping them reads back swapped, keeps owner and creation time and sets the update time |
| Store.UserTable.CreateUser | backend/internal/repository/user_repository.go:36-65 | on success the table gains exactly the new user with the unescaped fields and role "user", under a new id, whatever the email; rows stay keyed by their own id |
| Store.CreateUserAgrees | backend/internal/repository/user_repository.go:36-65 | fed the reply to the repository's INSERT, the table returns what `UserRepository.CreateUser` returns |
| Store.UserTable.GetUserByEmail | backend/internal/repository/user_repository.go:67-91 | succeeds exactly when some stored user has the email, and returns a stored user holding it |
| Store.UserTable.GetUserById | backend/internal/repository/user_repository.go:93-116 | the stored user with that id, or "no rows found", whether or not emails repeat |
| Store.RegisterThenFind | backend/internal/repository/user_repository.go:36-91 | in any table, a created user is stored under its id, its email then counts as taken, and the lookup by email finds a user with it, the new one when no earlier row held the email |
| Store.SecondRegistrationStored | backend/internal/repository/user_repository.go:20-65 | with no uniqueness on email, a new id with a taken email is stored, and two distinct rows then hold the email |
| PostHandlers.CreatePost | backend/internal/handlers/post.go:32-61 | 401 without claims, 400 for a bad body; the owner comes from the claims; 201 with the post, or 500 "Failed to create post: "+error |
| PostHandlers.GetAllPosts | backend/internal/handlers/post.go:63-74 | the list at status 200, or 500 "Failed to fetch posts: "+error |
| PostHandlers.GetPost | backend/internal/handlers/post.go:76-95 | a non-numeric id is 400; any repository error is 404 "Post not found"; otherwise the post at status 200 |
| PostHandlers.GetMyPosts | backend/internal/handlers/post.go:97-115 | 401 without claims; the lookup uses the claims' user id; the list at 200, or 500 with the error |
| PostHandlers.Guard | backend/internal/handlers/post.go:117-143 | the shared chain: 401, then 400, then 404 for any ownership error, then 403 for a non-owner; it lets the request through exactly when the verdict is `(true, nil)` |
| PostHandlers.UpdatePost | backend/internal/handlers/post.go:117-167 | the guard's refusal comes before anything else; a bad body is 400; the update is called only after the owner's check; a failed update is 500; success is 200 with the post as read back, or null |
| PostHandlers.DeletePost | backend/internal/handlers/post.go:169-207 | the guard's refusal comes before anything else; otherwise exactly the ownership check and then the delete, answered with 500 or with "Post deleted successfully" |
| PostHandlers.NonOwnerForbidden | backend/internal/handlers/post.go:133-143 | a non-owner gets 403 whatever the body, and a delete makes no call after the check |
| AuthHandlers.AvatarUrl | backend/internal/handlers/auth.go:62-64 | the URL is the fixed prefix, the query-escaped email, then the fixed backgroundColor suffix |
| AuthHandlers.SignIn | backend/internal/handlers/auth.go:79-100 | the token is signed over the user's id, email, name, image and role; a signing error is 500 with no cookie; success sets the session cookie and answers 200 with id, email and name |
| AuthHandlers.Register | backend/internal/handlers/auth.go:43-101 | 400, 500 for a hashing failure, 409 for "duplicate"/"unique" errors, 500 for others; the repository receives only the hash; no cookie unless the answer is 200 |
| AuthHandlers.Login | backend/internal/handlers/auth.go:103-147 | 400 for a bad body; an unknown email and a wrong password both give 401 "Invalid credentials"; a cookie is set only for the correct password |
| AuthHandlers.LoginFailuresIndistinguishable | backend/internal/handlers/auth.go:111-123 | an unknown email and a wrong password receive the same response and no cookie |
| AuthHandlers.GetMe | backend/internal/handlers/auth.go:149-173 | 401 "Invalid user claims" without claims; the stored user by the claims' id, or 500 "Failed to get user"; the body has no password and no cookie is set |
| Middleware.AuthMiddleware | backend/internal/middleware/auth.go:10-26 | an empty cookie is refused 401 before validation; a validation error gives the same 401; only a validated token passes, with exactly the claims returned |
| Middleware.GateReadsOnlySessionCookie | backend/internal/middleware/auth.go:11-18 | the verdict depends only on the session cookie and the validator's answer for it |
| Routes.Dispatch | backend/internal/server/routes.go:29-44 | the earliest registered route that matches, or none when no route does |
| Routes.GuardedExactlyWhereClaimsAreRead | backend/internal/server/routes.go:37-44 | exactly the handlers that read claims run behind the middleware |
| Routes.DispatchFirstMatch | backend/internal/server/routes.go:29-44 | a matching route with no earlier match is the one dispatched |
| Routes.UpdatePathDispatch | backend/internal/server/routes.go:43 | PUT on /api/posts/<id> reaches the guarded update handler |
| Routes.DeletePathDispatch | backend/internal/server/routes.go:44 | DELETE on /api/posts/<id> reaches the guarded delete handler |
| Routes.GetPathDispatch | backend/internal/server/routes.go:41 | GET on /api/posts/<id> reaches the unguarded single-post handler |
| Routes.MyPostsPathDispatch | backend/internal/server/routes.go:40 | GET /api/posts/my/posts reaches the guarded own-posts handler, not the id route |
| Routes.ServePost | backend/internal/server/routes.go:39-44 | a guarded route stops at the middleware's refusal or runs the handler with the validated claims; an unguarded one runs it without claims |
| Routes.MutationsNeedOwnerSession | backend/internal/server/routes.go:42-44 | any update or delete made while serving a request follows a validated non-empty session token, and the owner check for that token's user on that post |
| Routes.NoCookieNoRepositoryCall | backend/internal/server/routes.go:42-44 | a guarded posts endpoint answers 401 without a session cookie and makes no repository call |

## Left out

- The network client is not modelled. Its `Query` is the parameter `QueryFn`, and `Ping`, `Connect` and `Close` are outcome parameters. The goroutine, channel and one-second deadline of `Health` are reduced to which signal came first (`PingOutcome`).
- Process termination (`log.Fatalf` on a failed connection, `log.Fatal` on a missing JWT secret) is not modelled. `Database.Instance.New` instead requires that a first call connects.
- Logging, environment reads (`FRONTEND_URL`, `IS_PROD`), the CORS set-up and the server start-up are left out as I/O and configuration.
- Clock readings are parameters: the millisecond id, the creation time and `now`. Collisions between clock-derived ids are not modelled; the store refuses a taken id by precondition.
- Go's type assertion `row[i].(int64)` panics on a cell of the wrong type. The model fails with the error "unexpected cell type" (`TypeMismatch`) instead.
- `Common.Lower` lower-cases ASCII letters only. Go's `strings.ToLower` also folds non-ASCII letters, so an exists-class error spelled with non-ASCII capitals is not modelled.
- `Escape.EscapeString` works on characters. Go's `range` over a string yields runes and replaces invalid UTF-8 by U+FFFD; that replacement is not modelled.
- Signing and verifying JWTs (HS256, with `exp` and `iat`) are uninterpreted functions. So are bcrypt hashing and comparison and `url.QueryEscape`. JWT signing and validation read a secret and the clock; bcrypt hashing draws a random salt and its comparison is a cryptographic computation; `url.QueryEscape` is a pure standard-library function whose percent-encoding table is not modelled, so the avatar URL is stated in terms of it.
- Body parsing and `strconv.ParseInt` are represented by their result (`Option`). So are the framework's `Locals` lookup and its cookie lookup.
- The cookie's `Secure` flag (environment-dependent) and its `Expires` time (clock-dependent) are not modelled.
- `int64` width is not modelled: ids and times are unbounded integers.
- JSON encoding is not modelled. Responses are a status and a structured body.
- The middleware's `c.Next()` is modelled as the gate's `Admitted` verdict followed by the handler (`Routes.ServePost`).
- `Routes.ServePost` serves only the posts endpoints. The auth endpoints are modelled by their handlers and by their guard flag in the route table.
- The frontend (Svelte, fetch wrappers) is not part of this model, and neither is `backend/internal/server/server.go`.
- Escape.ReadLiteral: an assumed reading of the store's literal syntax, in which `''` is the only escape; the store's lexer is not part of this model, so backslash escapes or other lexer rules it may have are not covered, and the no-break-out lemmas hold only for this reading.
- Store.UserTable.GetUserByEmail: when several rows share the email it returns one of them, chosen freely; which row the store's `QueryRow` returns first depends on its scan order, which is not modelled.
- The concurrency of requests sharing one connection is not modelled: each call sees one store reply.
