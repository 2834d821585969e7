/** The two tables as the repositories' statements change them, held in
    memory: maps from the primary key to the stored row. Each statement
    method takes the store's reply (None when the statement succeeded), and
    changes the table only on success. Each text value arrives as the
    escaped body of its literal, and the table keeps that body decoded by
    `Unescape`; how the body is delimited in the statement's text is what
    `ReadLiteral` states in the repositories' lemmas. */
module Store {
  import opened Common
  import opened Models
  import opened Escape
  import opened Database
  import opened PostRepository
  import UserRepository

  /** A row of the posts table. */
  datatype PostRecord = PostRecord(userId: int, title: string, content: string, createdAt: int, updatedAt: int)

  /** The post a stored row reads back as (author fields empty). */
  function PostOf(id: int, rec: PostRecord): Post
  {
    Post(id, rec.userId, rec.title, rec.content, rec.createdAt, rec.updatedAt, "", "", "")
  }

  class PostTable {
    var rows: map<int, PostRecord>

    constructor ()
      ensures rows == map[]
    {
      rows := map[];
    }

    /** The reply to the owner query of `CheckPostOwnership`. */
    function OwnerRow(postId: int): Result<Row, string>
      reads this
    {
      if postId in rows then Success([IntCell(rows[postId].userId)]) else Failure(NoRowsFound)
    }

    /** The INSERT of `CreatePost`: on success the table gains exactly the
        new row, holding the caller's own title and content, with equal
        creation and update times; the store refuses a taken id. */
    method CreatePost(p: CreatePostParams, id: int, now: int, reply: Option<string>) returns (r: Result<Post, string>)
      requires reply.None? ==> id !in rows
      modifies this
      ensures reply.Some? ==> r == Failure(reply.value) && rows == old(rows)
      ensures reply.None? ==>
                r == Success(NewPost(p, id, now))
                && rows == old(rows)[id := PostRecord(p.userId, p.title, p.content, now, now)]
    {
      var title := EscapeString(p.title);
      var content := EscapeString(p.content);
      if reply.Some? {
        return Failure(reply.value);
      }
      UnescapeEscaped(p.title);
      UnescapeEscaped(p.content);
      rows := rows[id := PostRecord(p.userId, Unescape(title), Unescape(content), now, now)];
      r := Success(NewPost(p, id, now));
    }

    /** The UPDATE of `UpdatePost`: only title, content and updated_at of row
        `id` change; its owner and creation time stay, and so do all other
        rows. An id with no row matches nothing. */
    method UpdatePost(id: int, p: UpdatePostParams, now: int, reply: Option<string>) returns (err: Option<string>)
      modifies this
      ensures err == reply
      ensures reply.None? && id in old(rows) ==>
                rows == old(rows)[id := old(rows)[id].(title := p.title, content := p.content, updatedAt := now)]
      ensures reply.Some? || id !in old(rows) ==> rows == old(rows)
    {
      var title := EscapeString(p.title);
      var content := EscapeString(p.content);
      err := reply;
      if reply.None? && id in rows {
        UnescapeEscaped(p.title);
        UnescapeEscaped(p.content);
        rows := rows[id := rows[id].(title := Unescape(title), content := Unescape(content), updatedAt := now)];
      }
    }

    /** The DELETE of `DeletePost`: on success exactly the row `id` is gone. */
    method DeletePost(id: int, reply: Option<string>) returns (err: Option<string>)
      modifies this
      ensures err == reply
      ensures reply.None? ==> rows == old(rows) - {id}
      ensures reply.Some? ==> rows == old(rows)
    {
      err := reply;
      if reply.None? {
        rows := rows - {id};
      }
    }

    /** `CheckPostOwnership` against the table: the repository's verdict on
        the owner row, which is `(owner == userId, nil)` for a stored post
        and "no rows found" otherwise. */
    method CheckPostOwnership(postId: int, userId: int) returns (r: Ownership)
      ensures r == OwnershipFromRow(OwnerRow(postId), userId)
      ensures postId in rows ==> r == Ownership(rows[postId].userId == userId, None)
      ensures postId !in rows ==> r == Ownership(false, Some(NoRowsFound))
    {
      r := OwnershipFromRow(OwnerRow(postId), userId);
    }

    /** `GetPostByID` against the table, without the author lookup: the
        stored row, decoded positionally. */
    method GetPostByID(id: int) returns (r: Result<Post, string>)
      ensures id in rows ==> r == Success(PostOf(id, rows[id]))
      ensures id !in rows ==> r == Failure(NoRowsFound)
    {
      if id !in rows {
        return Failure(NoRowsFound);
      }
      var post := PostOf(id, rows[id]);
      DecodePostRow(post, []);
      assert PostRow(post) + [] == PostRow(post);
      r := DecodePost(PostRow(post));
    }
  }

  /** In any table, after A creates post p, the ownership check says yes
      for A and no for any other user; a non-owner's check never gives the
      verdict that permits a mutation. */
  method OwnershipAfterCreate(t: PostTable, a: int, b: int, p: int, title: string, content: string, now: int)
    returns (forA: Ownership, forB: Ownership)
    requires a != b
    requires p !in t.rows
    modifies t
    ensures forA == Owner
    ensures forB == Ownership(false, None)
    ensures t.rows - {p} == old(t.rows)
  {
    var created := t.CreatePost(CreatePostParams(a, title, content), p, now, None);
    forA := t.CheckPostOwnership(p, a);
    forB := t.CheckPostOwnership(p, b);
  }

  /** In any table, a title and content holding quotes are read back
      exactly after being stored; an update that swaps them is read back
      swapped, with the update time changed and the creation time and owner
      kept; no other row changes. */
  method StoreRoundTrip(t: PostTable, owner: int, p: int, title: string, content: string, created: int, later: int)
    returns (before: Result<Post, string>, after: Result<Post, string>)
    requires p !in t.rows
    modifies t
    ensures before.Success? && before.value.title == title && before.value.content == content
    ensures after.Success? && after.value.createdAt == created && after.value.updatedAt == later
    ensures after.value.userId == owner && after.value.title == content && after.value.content == title
    ensures t.rows - {p} == old(t.rows)
  {
    var _ := t.CreatePost(CreatePostParams(owner, title, content), p, created, None);
    before := t.GetPostByID(p);
    var _ := t.UpdatePost(p, UpdatePostParams(content, title), later, None);
    after := t.GetPostByID(p);
  }

  /** Given the store's reply to the repository's own INSERT, the table's
      `CreatePost` returns what `PostRepository.CreatePost` returns. */
  method CreatePostAgrees(t: PostTable, query: QueryFn, p: CreatePostParams, id: int, now: int)
    returns (r: Result<Post, string>)
    requires Execute(query, InsertPostStatement(id, p, now)).None? ==> id !in t.rows
    modifies t
    ensures r == PostRepository.CreatePost(query, p, id, now)
  {
    r := t.CreatePost(p, id, now, Execute(query, InsertPostStatement(id, p, now)));
  }

  /** Given the store's reply to the repository's own UPDATE, the table's
      `UpdatePost` returns what `PostRepository.UpdatePost` returns. */
  method UpdatePostAgrees(t: PostTable, query: QueryFn, id: int, p: UpdatePostParams, now: int)
    returns (err: Option<string>)
    modifies t
    ensures err == PostRepository.UpdatePost(query, id, p, now)
  {
    err := t.UpdatePost(id, p, now, Execute(query, UpdateStatement(id, p, now)));
  }

  /** Given the store's reply to the repository's own DELETE, the table's
      `DeletePost` returns what `PostRepository.DeletePost` returns. */
  method DeletePostAgrees(t: PostTable, query: QueryFn, id: int) returns (err: Option<string>)
    modifies t
    ensures err == PostRepository.DeletePost(query, id)
  {
    err := t.DeletePost(id, Execute(query, DeleteStatement(id)));
  }

  /** The users table, keyed by its primary key `id`. The schema declares
      nothing unique about `email`, so several rows may share one. */
  class UserTable {
    var users: map<int, User>

    /** Each row is keyed by its own id. */
    ghost predicate Valid()
      reads this
    {
      forall id :: id in users ==> users[id].id == id
    }

    constructor ()
      ensures Valid() && users == map[]
    {
      users := map[];
    }

    predicate EmailTaken(email: string)
      reads this
    {
      exists id :: id in users && users[id].email == email
    }

    /** The INSERT of `CreateUser`: on success the table gains exactly the
        new user, with the caller's own (unescaped) fields and role "user";
        the store accepts it only for a new id, whatever the email. */
    method CreateUser(p: CreateUserParams, id: int, createdAt: int, reply: Option<string>)
      returns (r: Result<User, string>)
      requires Valid()
      requires reply.None? ==> id !in users
      modifies this
      ensures Valid()
      ensures reply.Some? ==> r == Failure(reply.value) && users == old(users)
      ensures reply.None? ==>
                var u := User(id, p.email, p.password, p.name, p.image, UserRepository.DefaultRole, createdAt);
                r == Success(u) && users == old(users)[id := u]
    {
      var email := EscapeString(p.email);
      var password := EscapeString(p.password);
      var name := EscapeString(p.name);
      var image := EscapeString(p.image);
      if reply.Some? {
        return Failure(reply.value);
      }
      UnescapeEscaped(p.email);
      UnescapeEscaped(p.password);
      UnescapeEscaped(p.name);
      UnescapeEscaped(p.image);
      var u := User(id, Unescape(email), Unescape(password), Unescape(name), Unescape(image),
                    UserRepository.DefaultRole, createdAt);
      users := users[id := u];
      r := Success(u);
    }

    /** `GetUserByEmail` against the table: a user with that email (one of
        them, when several share it), or "no rows found". */
    method GetUserByEmail(email: string) returns (r: Result<User, string>)
      requires Valid()
      ensures r.Success? <==> EmailTaken(email)
      ensures r.Success? ==> r.value.id in users && users[r.value.id] == r.value && r.value.email == email
      ensures r.Failure? ==> r.error == NoRowsFound
    {
      if !EmailTaken(email) {
        return Failure(NoRowsFound);
      }
      var id :| id in users && users[id].email == email;
      r := Success(users[id]);
    }

    /** `GetUserById` against the table. */
    method GetUserById(id: int) returns (r: Result<User, string>)
      requires Valid()
      ensures id in users ==> r == Success(users[id]) && r.value.id == id
      ensures id !in users ==> r == Failure(NoRowsFound)
    {
      if id !in users {
        return Failure(NoRowsFound);
      }
      r := Success(users[id]);
    }
  }

  /** Given the store's reply to the repository's own INSERT, the table's
      `CreateUser` returns what `UserRepository.CreateUser` returns. */
  method CreateUserAgrees(t: UserTable, query: QueryFn, p: CreateUserParams, id: int, createdAt: int)
    returns (r: Result<User, string>)
    requires t.Valid()
    requires Execute(query, UserRepository.InsertUserStatement(id, p, createdAt)).None? ==> id !in t.users
    modifies t
    ensures t.Valid()
    ensures r == UserRepository.CreateUser(query, p, id, createdAt)
  {
    r := t.CreateUser(p, id, createdAt, Execute(query, UserRepository.InsertUserStatement(id, p, createdAt)));
  }

  /** In any table, a user registered with a new id is stored under it and
      its email is then taken; the lookup by email finds a user with that
      email, and it is the new one when no earlier row held the email. */
  method RegisterThenFind(t: UserTable, p: CreateUserParams, id: int, createdAt: int)
    returns (created: Result<User, string>, found: Result<User, string>, taken: bool)
    requires t.Valid() && id !in t.users
    modifies t
    ensures t.Valid()
    ensures created.Success? && created.value.id == id && created.value.email == p.email
    ensures t.users == old(t.users)[id := created.value]
    ensures found.Success? && found.value.email == p.email && taken
    ensures !old(t.EmailTaken(p.email)) ==> found == created
  {
    created := t.CreateUser(p, id, createdAt, None);
    assert t.users[id].email == p.email;
    found := t.GetUserByEmail(p.email);
    taken := t.EmailTaken(p.email);
  }

  /** Nothing in the users table stops a second registration with an email
      already held: with a new id the row is stored, and two rows then hold
      the email. Refusing it (the 409 of `Register`) rests entirely on the
      store reporting a duplicate. */
  method SecondRegistrationStored(t: UserTable, p: CreateUserParams, id: int, createdAt: int)
    returns (created: Result<User, string>)
    requires t.Valid() && id !in t.users && t.EmailTaken(p.email)
    modifies t
    ensures t.Valid()
    ensures created.Success? && created.value.id == id
    ensures exists other :: other in t.users && other != id && t.users[other].email == p.email
    ensures id in t.users && t.users[id].email == p.email
  {
    ghost var other :| other in t.users && t.users[other].email == p.email;
    created := t.CreateUser(p, id, createdAt, None);
    assert other in t.users && other != id && t.users[other].email == p.email;
  }
}
