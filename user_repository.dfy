/** The users repository: table creation that tolerates an existing table,
    user creation through an INSERT whose string values are escaped, and the
    two lookups that decode a row positionally. Clock readings (the id and
    the creation time) are parameters. */
module UserRepository {
  import opened Common
  import opened Models
  import opened Escape
  import opened Database

  const CreateUsersTable := "CREATE TABLE users (id INT NOT NULL, email VARCHAR(255), password VARCHAR(255), name VARCHAR(255), image VARCHAR(500), role VARCHAR(50), created_at INT, PRIMARY KEY (id))"

  const DefaultRole := "user"

  /** A table-creation error that means the table is already there. */
  predicate IsExistsError(e: string)
  {
    Contains(Lower(e), "exists") || Contains(Lower(e), "duplicate")
  }

  /** The error filter of both `InitTable`s: success when there was no error
      or when the lower-cased text mentions "already exists", "duplicate" or
      "exists"; any other error is returned unchanged. The "already exists"
      test is implied by the "exists" one. */
  function TolerateExists(err: Option<string>): (r: Option<string>)
    ensures r.None? <==> err.None? || IsExistsError(err.value)
    ensures r.Some? ==> r == err
  {
    match err
    case None => None
    case Some(e) =>
      var msg := Lower(e);
      assert "already exists" == "already " + "exists";
      if Contains(msg, "already exists") then
        ContainsTail(msg, "already ", "exists");
        None
      else if Contains(msg, "duplicate") || Contains(msg, "exists") then None
      else Some(e)
  }

  /** `InitTable`: create the users table, treating "exists"-class errors as
      success. */
  function InitTable(query: QueryFn): (err: Option<string>)
    ensures err.None? <==> query(CreateUsersTable).Success? || IsExistsError(query(CreateUsersTable).error)
    ensures err.Some? ==> err.value == query(CreateUsersTable).error
  {
    TolerateExists(Execute(query, CreateUsersTable))
  }

  /** The INSERT of `CreateUser`, with every text field escaped; it is
      written as the text up to the email's opening quote, the email literal,
      and the rest of the statement. */
  function InsertUserStatement(id: int, p: CreateUserParams, createdAt: int): string
  {
    InsertUserHead(id) + (Escaped(p.email) + "'" + InsertUserTail(p, createdAt))
  }

  function InsertUserHead(id: int): string
  {
    "INSERT INTO users VALUES (" + Decimal(id) + ", '"
  }

  /** The INSERT after the email's closing quote: the password, name,
      image and role literals, each written as its opening text, the literal
      and what follows its closing quote, and then the creation time. */
  function InsertUserTail(p: CreateUserParams, createdAt: int): string
  {
    ", '" + (Escaped(p.password) + "'" + InsertUserNameRest(p, createdAt))
  }

  function InsertUserNameRest(p: CreateUserParams, createdAt: int): string
  {
    ", '" + (Escaped(p.name) + "'" + InsertUserImageRest(p, createdAt))
  }

  function InsertUserImageRest(p: CreateUserParams, createdAt: int): string
  {
    ", '" + (Escaped(p.image) + "'" + InsertUserRoleRest(createdAt))
  }

  function InsertUserRoleRest(createdAt: int): string
  {
    ", '" + (DefaultRole + "'" + InsertUserEnd(createdAt))
  }

  function InsertUserEnd(createdAt: int): string
  {
    ", " + Decimal(createdAt) + ")"
  }

  /** `CreateUser`: on a successful INSERT, the user as the caller gave it
      (unescaped), with role "user" and the id used in the statement; a
      failed INSERT gives its error and no user. */
  function CreateUser(query: QueryFn, p: CreateUserParams, id: int, createdAt: int): (r: Result<User, string>)
    ensures query(InsertUserStatement(id, p, createdAt)).Failure? ==>
              r == Failure(query(InsertUserStatement(id, p, createdAt)).error)
    ensures query(InsertUserStatement(id, p, createdAt)).Success? ==>
              r == Success(User(id, p.email, p.password, p.name, p.image, DefaultRole, createdAt))
  {
    match Execute(query, InsertUserStatement(id, p, createdAt))
    case Some(e) => Failure(e)
    case None => Success(User(id, p.email, p.password, p.name, p.image, DefaultRole, createdAt))
  }

  /** The store reads the INSERT's first quoted value back as the caller's
      email and resumes at the rest of the statement. */
  lemma InsertUserEmailLiteral(id: int, p: CreateUserParams, createdAt: int)
    ensures var stmt := InsertUserStatement(id, p, createdAt);
            StartsWith(stmt, InsertUserHead(id)) &&
            ReadLiteral(stmt[|InsertUserHead(id)|..]) == Some((p.email, InsertUserTail(p, createdAt)))
  {
    var head, tail := InsertUserHead(id), InsertUserTail(p, createdAt);
    var stmt := InsertUserStatement(id, p, createdAt);
    assert stmt[..|head|] == head;
    assert stmt[|head|..] == Escaped(p.email) + [Quote] + tail;
    assert tail[0] == ',';
    ReadEscapedLiteral(p.email, tail);
  }

  /** After the email, the store reads the password, name and image
      literals back as the caller's values and the role literal as "user",
      each ending where the source meant it to; the creation time after the
      last literal holds no quote. */
  lemma InsertUserTailLiterals(p: CreateUserParams, createdAt: int)
    ensures var tail := InsertUserTail(p, createdAt);
            var name := InsertUserNameRest(p, createdAt);
            var image := InsertUserImageRest(p, createdAt);
            var role := InsertUserRoleRest(createdAt);
            && ReadLiteral(tail[3..]) == Some((p.password, name))
            && ReadLiteral(name[3..]) == Some((p.name, image))
            && ReadLiteral(image[3..]) == Some((p.image, role))
            && ReadLiteral(role[3..]) == Some((DefaultRole, InsertUserEnd(createdAt)))
            && Quote !in InsertUserEnd(createdAt)
  {
    var tail, name, image, role, end :=
      InsertUserTail(p, createdAt), InsertUserNameRest(p, createdAt), InsertUserImageRest(p, createdAt),
      InsertUserRoleRest(createdAt), InsertUserEnd(createdAt);
    assert tail[3..] == Escaped(p.password) + [Quote] + name;
    assert name[0] == ',';
    ReadEscapedLiteral(p.password, name);
    assert name[3..] == Escaped(p.name) + [Quote] + image;
    assert image[0] == ',';
    ReadEscapedLiteral(p.name, image);
    assert image[3..] == Escaped(p.image) + [Quote] + role;
    assert role[0] == ',';
    ReadEscapedLiteral(p.image, role);
    EscapedWithoutQuote(DefaultRole);
    assert role[3..] == Escaped(DefaultRole) + [Quote] + end;
    assert end[0] == ',';
    ReadEscapedLiteral(DefaultRole, end);
    DecimalHasNoQuote(createdAt);
  }

  /** The id `%d` puts into the INSERT stands outside every literal:
      the text before the email holds exactly one quote, the one that opens
      the email literal. */
  lemma InsertUserIdOutsideLiterals(id: int)
    ensures var head := InsertUserHead(id);
            head[|head| - 1] == Quote && Quote !in head[..|head| - 1]
  {
    var head := InsertUserHead(id);
    DecimalHasNoQuote(id);
    assert head[..|head| - 1] == "INSERT INTO users VALUES (" + Decimal(id) + ", ";
  }

  const UserColumns := "SELECT id, email, password, name, image, role, created_at FROM users"
  const EmailQueryPrefix := UserColumns + " WHERE email = '"

  function UserByEmailQuery(email: string): string
  {
    EmailQueryPrefix + Escaped(email) + "'"
  }

  function UserByIdQuery(id: int): string
  {
    UserColumns + " WHERE id = " + Decimal(id)
  }

  /** The email is the only caller text in the lookup query, and it sits in
      one literal that the store reads back as exactly that email, with
      nothing after it. */
  lemma EmailQueryLiteral(email: string)
    ensures var q := UserByEmailQuery(email);
            StartsWith(q, EmailQueryPrefix) && ReadLiteral(q[|EmailQueryPrefix|..]) == Some((email, ""))
  {
    var q := UserByEmailQuery(email);
    assert q == EmailQueryPrefix + (Escaped(email) + [Quote] + "");
    assert q[..|EmailQueryPrefix|] == EmailQueryPrefix;
    assert q[|EmailQueryPrefix|..] == Escaped(email) + [Quote] + "";
    ReadEscapedLiteral(email, "");
  }

  /** The row layout of the users table, in the SELECT's column order. */
  function UserRow(u: User): Row
  {
    [IntCell(u.id), StrCell(u.email), StrCell(u.password), StrCell(u.name),
     StrCell(u.image), StrCell(u.role), IntCell(u.createdAt)]
  }

  /** Positional decoding shared by both lookups: fewer than 7 cells is
      "invalid row data"; otherwise cell i gives field i, the creation time
      coming from cell 6. */
  function DecodeUser(row: Row): (r: Result<User, string>)
    ensures |row| < 7 ==> r == Failure(InvalidRowData)
    ensures |row| >= 7 && r.Failure? ==> r.error == TypeMismatch
    ensures r.Success? ==> UserRow(r.value) == row[..7]
  {
    if |row| < 7 then Failure(InvalidRowData)
    else if row[0].IntCell? && row[1].StrCell? && row[2].StrCell? && row[3].StrCell?
         && row[4].StrCell? && row[5].StrCell? && row[6].IntCell? then
      Success(User(row[0].i, row[1].s, row[2].s, row[3].s, row[4].s, row[5].s, row[6].i))
    else Failure(TypeMismatch)
  }

  /** A stored user's row decodes to that user, whatever extra cells follow. */
  lemma DecodeUserRow(u: User, extra: Row)
    ensures DecodeUser(UserRow(u) + extra) == Success(u)
  {
  }

  /** `GetUserByEmail`: the store's error passes through, an empty result
      is "no rows found", a short first row is "invalid row data", and a
      user is returned only as the positional reading of the first row. */
  function GetUserByEmail(query: QueryFn, email: string): (r: Result<User, string>)
    ensures var reply := query(UserByEmailQuery(email));
            && (reply.Failure? ==> r == Failure(reply.error))
            && (reply.Success? && reply.value.rows == [] ==> r == Failure(NoRowsFound))
            && (reply.Success? && reply.value.rows != [] && |reply.value.rows[0]| < 7 ==> r == Failure(InvalidRowData))
            && (r.Success? ==> reply.Success? && reply.value.rows != [] && UserRow(r.value) == reply.value.rows[0][..7])
            && (reply.Success? && reply.value.rows != [] ==> r == DecodeUser(reply.value.rows[0]))
  {
    match QueryRow(query, UserByEmailQuery(email))
    case Failure(e) => Failure(e)
    case Success(row) => DecodeUser(row)
  }

  /** The result of `GetUserByEmail` depends only on the store's reply to the
      escaped-email query. */
  lemma GetUserByEmailReadsOneQuery(q1: QueryFn, q2: QueryFn, email: string)
    requires q1(UserByEmailQuery(email)) == q2(UserByEmailQuery(email))
    ensures GetUserByEmail(q1, email) == GetUserByEmail(q2, email)
  {
  }

  /** `GetUserById`: as by email, with the id interpolated as a number. */
  function GetUserById(query: QueryFn, id: int): (r: Result<User, string>)
    ensures var reply := query(UserByIdQuery(id));
            && (reply.Failure? ==> r == Failure(reply.error))
            && (reply.Success? && reply.value.rows == [] ==> r == Failure(NoRowsFound))
            && (reply.Success? && reply.value.rows != [] && |reply.value.rows[0]| < 7 ==> r == Failure(InvalidRowData))
            && (r.Success? ==> reply.Success? && reply.value.rows != [] && UserRow(r.value) == reply.value.rows[0][..7])
            && (reply.Success? && reply.value.rows != [] ==> r == DecodeUser(reply.value.rows[0]))
  {
    match QueryRow(query, UserByIdQuery(id))
    case Failure(e) => Failure(e)
    case Success(row) => DecodeUser(row)
  }

  /** A stored user in the first row of the reply is what the lookup by
      email returns, whatever extra cells follow. */
  lemma GetUserByEmailReturnsStoredUser(query: QueryFn, email: string, u: User, extra: Row)
    requires query(UserByEmailQuery(email)).Success? && query(UserByEmailQuery(email)).value.rows != []
    requires query(UserByEmailQuery(email)).value.rows[0] == UserRow(u) + extra
    ensures GetUserByEmail(query, email) == Success(u)
  {
    DecodeUserRow(u, extra);
  }

  /** Likewise for the lookup by id. */
  lemma GetUserByIdReturnsStoredUser(query: QueryFn, id: int, u: User, extra: Row)
    requires query(UserByIdQuery(id)).Success? && query(UserByIdQuery(id)).value.rows != []
    requires query(UserByIdQuery(id)).value.rows[0] == UserRow(u) + extra
    ensures GetUserById(query, id) == Success(u)
  {
    DecodeUserRow(u, extra);
  }
}
