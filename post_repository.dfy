/** The posts repository over the store's query interface: table creation,
    the INSERT/UPDATE/DELETE statements with escaped text, the positional
    decoding of post rows, the list queries that skip short rows, the
    best-effort author lookup, and the ownership check. Clock readings (the
    new id and the current time) are parameters. */
module PostRepository {
  import opened Common
  import opened Models
  import opened Escape
  import opened Database
  import UserRepository

  const CreatePostsTable := "CREATE TABLE posts (id INT NOT NULL, user_id INT NOT NULL, title VARCHAR(255), content VARCHAR(5000), created_at INT, updated_at INT, PRIMARY KEY (id))"

  /** `InitTable`: create the posts table, treating "exists"-class errors as
      success. */
  function InitTable(query: QueryFn): (err: Option<string>)
    ensures err.None? <==>
              query(CreatePostsTable).Success? || UserRepository.IsExistsError(query(CreatePostsTable).error)
    ensures err.Some? ==> err.value == query(CreatePostsTable).error
  {
    UserRepository.TolerateExists(Execute(query, CreatePostsTable))
  }

  // ---------------------------------------------------------------------
  // Creating a post

  /** The INSERT of `CreatePost`, written as the text up to the title's
      opening quote, the title literal, and the rest of the statement. */
  function InsertPostStatement(id: int, p: CreatePostParams, now: int): string
  {
    InsertPostHead(id, p.userId) + (Escaped(p.title) + "'" + InsertPostMiddle(p, now))
  }

  function InsertPostHead(id: int, userId: int): string
  {
    "INSERT INTO posts VALUES (" + Decimal(id) + ", " + Decimal(userId) + ", '"
  }

  /** The INSERT after the title's closing quote: the content literal and
      the two timestamps. */
  function InsertPostMiddle(p: CreatePostParams, now: int): string
  {
    ", '" + (Escaped(p.content) + "'" + InsertPostTail(now))
  }

  function InsertPostTail(now: int): string
  {
    ", " + Decimal(now) + ", " + Decimal(now) + ")"
  }

  /** The store reads the INSERT's two quoted values back as the caller's
      title and content, each literal ending where the source meant it to. */
  lemma InsertPostLiterals(id: int, p: CreatePostParams, now: int)
    ensures var stmt := InsertPostStatement(id, p, now);
            var head := InsertPostHead(id, p.userId);
            var middle := InsertPostMiddle(p, now);
            && StartsWith(stmt, head)
            && ReadLiteral(stmt[|head|..]) == Some((p.title, middle))
            && ReadLiteral(middle[3..]) == Some((p.content, InsertPostTail(now)))
  {
    var head, middle, tail := InsertPostHead(id, p.userId), InsertPostMiddle(p, now), InsertPostTail(now);
    var stmt := InsertPostStatement(id, p, now);
    assert stmt[..|head|] == head;
    assert stmt[|head|..] == Escaped(p.title) + [Quote] + middle;
    assert middle[0] == ',';
    ReadEscapedLiteral(p.title, middle);
    assert middle[3..] == Escaped(p.content) + [Quote] + tail;
    assert tail[0] == ',';
    ReadEscapedLiteral(p.content, tail);
  }

  /** The numbers of the INSERT stand outside its literals: before the
      title there is exactly the one opening quote, and after the content's
      closing quote there is none. */
  lemma InsertPostNumbersOutsideLiterals(id: int, userId: int, now: int)
    ensures var head := InsertPostHead(id, userId);
            head[|head| - 1] == Quote && Quote !in head[..|head| - 1]
    ensures Quote !in InsertPostTail(now)
  {
    var head := InsertPostHead(id, userId);
    DecimalHasNoQuote(id);
    DecimalHasNoQuote(userId);
    DecimalHasNoQuote(now);
    assert head[..|head| - 1] == "INSERT INTO posts VALUES (" + Decimal(id) + ", " + Decimal(userId) + ", ";
  }

  /** Author fields are empty: the post was not enriched by an author lookup. */
  predicate WithoutAuthor(post: Post)
  {
    post.authorName == "" && post.authorEmail == "" && post.authorImage == ""
  }

  /** The post `CreatePost` hands back after a successful INSERT. */
  function NewPost(p: CreatePostParams, id: int, now: int): (post: Post)
    ensures post.id == id && post.userId == p.userId
    ensures post.title == p.title && post.content == p.content
    ensures post.createdAt == now && post.updatedAt == now
    ensures WithoutAuthor(post)
  {
    Post(id, p.userId, p.title, p.content, now, now, "", "", "")
  }

  /** `CreatePost`: a failed INSERT gives its error; otherwise the new post,
      owned by the user the parameters name, with the original (unescaped)
      title and content and equal creation and update times. */
  function CreatePost(query: QueryFn, p: CreatePostParams, id: int, now: int): (r: Result<Post, string>)
    ensures query(InsertPostStatement(id, p, now)).Failure? ==>
              r == Failure(query(InsertPostStatement(id, p, now)).error)
    ensures query(InsertPostStatement(id, p, now)).Success? ==>
              r.Success? && r.value.id == id && r.value.userId == p.userId
              && r.value.title == p.title && r.value.content == p.content
              && r.value.createdAt == now == r.value.updatedAt
  {
    match Execute(query, InsertPostStatement(id, p, now))
    case Some(e) => Failure(e)
    case None => Success(NewPost(p, id, now))
  }

  // ---------------------------------------------------------------------
  // Decoding rows

  /** The row layout of the posts table, in the SELECT's column order. */
  function PostRow(post: Post): Row
  {
    [IntCell(post.id), IntCell(post.userId), StrCell(post.title), StrCell(post.content),
     IntCell(post.createdAt), IntCell(post.updatedAt)]
  }

  /** Positional decoding of a post row: fewer than 6 cells is "invalid row
      data"; otherwise cell i gives field i and the author fields are empty. */
  function DecodePost(row: Row): (r: Result<Post, string>)
    ensures |row| < 6 ==> r == Failure(InvalidRowData)
    ensures |row| >= 6 && r.Failure? ==> r.error == TypeMismatch
    ensures r.Success? ==> PostRow(r.value) == row[..6] && WithoutAuthor(r.value)
  {
    if |row| < 6 then Failure(InvalidRowData)
    else if row[0].IntCell? && row[1].IntCell? && row[2].StrCell? && row[3].StrCell?
         && row[4].IntCell? && row[5].IntCell? then
      Success(Post(row[0].i, row[1].i, row[2].s, row[3].s, row[4].i, row[5].i, "", "", ""))
    else Failure(TypeMismatch)
  }

  /** A stored post's row decodes to that post, whatever extra cells follow. */
  lemma DecodePostRow(post: Post, extra: Row)
    requires WithoutAuthor(post)
    ensures DecodePost(PostRow(post) + extra) == Success(post)
  {
  }

  function AuthorQuery(userId: int): string
  {
    "SELECT name, email, image FROM users WHERE id = " + Decimal(userId)
  }

  /** The best-effort author lookup: a row of at least three cells fills the
      author fields; a failed lookup or a shorter row leaves the post as it
      was, without failing. */
  function WithAuthor(post: Post, author: Result<Row, string>): (r: Result<Post, string>)
    ensures author.Failure? || |author.value| < 3 ==> r == Success(post)
    ensures r.Success? ==> r.value.(authorName := post.authorName, authorEmail := post.authorEmail,
                                   authorImage := post.authorImage) == post
    ensures r.Success? && author.Success? && |author.value| >= 3 ==>
              [StrCell(r.value.authorName), StrCell(r.value.authorEmail), StrCell(r.value.authorImage)]
                == author.value[..3]
    ensures author.Success? && |author.value| >= 3 ==>
              (r.Success? <==> author.value[0].StrCell? && author.value[1].StrCell? && author.value[2].StrCell?)
    ensures r.Failure? ==> r.error == TypeMismatch
  {
    if author.Failure? || |author.value| < 3 then Success(post)
    else
      var cells := author.value;
      if cells[0].StrCell? && cells[1].StrCell? && cells[2].StrCell? then
        Success(post.(authorName := cells[0].s, authorEmail := cells[1].s, authorImage := cells[2].s))
      else Failure(TypeMismatch)
  }

  // ---------------------------------------------------------------------
  // Listing posts

  const PostColumns := "SELECT id, user_id, title, content, created_at, updated_at FROM posts"
  const AllPostsQuery := PostColumns + " ORDER BY created_at DESC"

  function PostsByUserQuery(userId: int): string
  {
    PostColumns + " WHERE user_id = " + Decimal(userId) + " ORDER BY created_at DESC"
  }

  /** The rows a list query keeps: those with at least six cells, in order. */
  function LongRows(rows: seq<Row>): (kept: seq<Row>)
    ensures forall i :: 0 <= i < |kept| ==> |kept[i]| >= 6
    decreases |rows|
  {
    if rows == [] then []
    else if |rows[0]| < 6 then LongRows(rows[1..])
    else [rows[0]] + LongRows(rows[1..])
  }

  /** `xs` is `ys` with some elements left out and the rest kept in order. */
  predicate Subsequence<T(==)>(xs: seq<T>, ys: seq<T>)
    decreases |ys|
  {
    if xs == [] then true
    else if ys == [] then false
    else (xs[0] == ys[0] && Subsequence(xs[1..], ys[1..])) || Subsequence(xs, ys[1..])
  }

  lemma {:induction false} SubsequenceLength<T>(xs: seq<T>, ys: seq<T>)
    requires Subsequence(xs, ys)
    ensures |xs| <= |ys|
    decreases |ys|
  {
    if xs != [] {
      if xs[0] == ys[0] && Subsequence(xs[1..], ys[1..]) {
        SubsequenceLength(xs[1..], ys[1..]);
      } else {
        SubsequenceLength(xs, ys[1..]);
      }
    }
  }

  /** The kept rows are the query's rows in the query's order, with only the
      short rows left out; so there are never more of them than rows. */
  lemma {:induction false} LongRowsInOrder(rows: seq<Row>)
    ensures Subsequence(LongRows(rows), rows)
    ensures |LongRows(rows)| <= |rows|
    ensures (forall i :: 0 <= i < |rows| ==> |rows[i]| >= 6) ==> LongRows(rows) == rows
    decreases |rows|
  {
    if rows != [] {
      LongRowsInOrder(rows[1..]);
      if |rows[0]| >= 6 {
        assert LongRows(rows)[1..] == LongRows(rows[1..]);
      } else {
        SkipHeadKeepsSubsequence(LongRows(rows[1..]), rows);
      }
      SubsequenceLength(LongRows(rows), rows);
      if forall i :: 0 <= i < |rows| ==> |rows[i]| >= 6 {
        assert forall i :: 0 <= i < |rows[1..]| ==> |rows[1..][i]| >= 6 by {
          forall i | 0 <= i < |rows[1..]| ensures |rows[1..][i]| >= 6 {
            assert rows[1..][i] == rows[i + 1];
          }
        }
        assert rows == [rows[0]] + rows[1..];
      }
    }
  }

  lemma SkipHeadKeepsSubsequence<T>(xs: seq<T>, ys: seq<T>)
    requires ys != [] && Subsequence(xs, ys[1..])
    ensures Subsequence(xs, ys)
  {
  }

  /** What one kept row contributes to a list: the decoded post, looked up
      for its author when the query does that. */
  function Entry(row: Row, query: QueryFn, withAuthor: bool): Result<Post, string>
    requires |row| >= 6
  {
    match DecodePost(row)
    case Failure(e) => Failure(e)
    case Success(post) =>
      if withAuthor then WithAuthor(post, QueryRow(query, AuthorQuery(post.userId))) else Success(post)
  }

  /** A list already built, followed by whatever the remaining rows give. */
  function Extend(done: seq<Post>, later: Result<seq<Post>, string>): Result<seq<Post>, string>
  {
    match later
    case Success(more) => Success(done + more)
    case Failure(e) => Failure(e)
  }

  /** Specification of the list loops: the rows in order, short rows
      skipped, the first failing row ending the whole list. */
  function PostsFrom(rows: seq<Row>, query: QueryFn, withAuthor: bool): Result<seq<Post>, string>
    decreases |rows|
  {
    if rows == [] then Success([])
    else if |rows[0]| < 6 then PostsFrom(rows[1..], query, withAuthor)
    else
      match Entry(rows[0], query, withAuthor)
      case Failure(e) => Failure(e)
      case Success(post) => Extend([post], PostsFrom(rows[1..], query, withAuthor))
  }

  /** A list is produced exactly when every kept row yields an entry, and it
      is those entries, one per kept row, in row order. */
  lemma PostsFromEntries(rows: seq<Row>, query: QueryFn, withAuthor: bool, posts: seq<Post>)
    ensures PostsFrom(rows, query, withAuthor) == Success(posts) <==>
              |posts| == |LongRows(rows)|
              && forall i :: 0 <= i < |posts| ==> Entry(LongRows(rows)[i], query, withAuthor) == Success(posts[i])
  {
    if PostsFrom(rows, query, withAuthor) == Success(posts) {
      PostsFromYieldsEntries(rows, query, withAuthor, posts);
    }
    if |posts| == |LongRows(rows)|
       && forall i :: 0 <= i < |posts| ==> Entry(LongRows(rows)[i], query, withAuthor) == Success(posts[i]) {
      EntriesYieldPostsFrom(rows, query, withAuthor, posts);
    }
  }

  /** A produced list has one entry per kept row, in row order. */
  lemma {:induction false} PostsFromYieldsEntries(rows: seq<Row>, query: QueryFn, withAuthor: bool, posts: seq<Post>)
    requires PostsFrom(rows, query, withAuthor) == Success(posts)
    ensures |posts| == |LongRows(rows)|
    ensures forall i :: 0 <= i < |posts| ==> Entry(LongRows(rows)[i], query, withAuthor) == Success(posts[i])
    decreases |rows|
  {
    if rows != [] {
      if |rows[0]| < 6 {
        PostsFromYieldsEntries(rows[1..], query, withAuthor, posts);
      } else {
        var kept := LongRows(rows);
        assert kept == [rows[0]] + LongRows(rows[1..]);
        var more := PostsFrom(rows[1..], query, withAuthor).value;
        assert posts == [Entry(rows[0], query, withAuthor).value] + more;
        PostsFromYieldsEntries(rows[1..], query, withAuthor, more);
        forall i | 0 <= i < |posts|
          ensures Entry(kept[i], query, withAuthor) == Success(posts[i])
        {
          if i > 0 {
            assert kept[i] == LongRows(rows[1..])[i - 1] && posts[i] == more[i - 1];
          }
        }
      }
    }
  }

  /** One successful entry per kept row, in row order, is the list produced. */
  lemma {:induction false} EntriesYieldPostsFrom(rows: seq<Row>, query: QueryFn, withAuthor: bool, posts: seq<Post>)
    requires |posts| == |LongRows(rows)|
    requires forall i :: 0 <= i < |posts| ==> Entry(LongRows(rows)[i], query, withAuthor) == Success(posts[i])
    ensures PostsFrom(rows, query, withAuthor) == Success(posts)
    decreases |rows|
  {
    if rows != [] {
      if |rows[0]| < 6 {
        EntriesYieldPostsFrom(rows[1..], query, withAuthor, posts);
      } else {
        var kept := LongRows(rows);
        assert kept == [rows[0]] + LongRows(rows[1..]);
        assert Entry(rows[0], query, withAuthor) == Success(posts[0]);
        forall i | 0 <= i < |posts[1..]|
          ensures Entry(LongRows(rows[1..])[i], query, withAuthor) == Success(posts[1..][i])
        {
          assert kept[i + 1] == LongRows(rows[1..])[i];
        }
        EntriesYieldPostsFrom(rows[1..], query, withAuthor, posts[1..]);
        assert [posts[0]] + posts[1..] == posts;
      }
    }
  }

  /** A list fails only with the error of the first kept row whose entry
      fails, all kept rows before it having yielded entries. */
  lemma {:induction false} PostsFromFirstFailure(rows: seq<Row>, query: QueryFn, withAuthor: bool)
    requires PostsFrom(rows, query, withAuthor).Failure?
    ensures exists k :: 0 <= k < |LongRows(rows)|
              && Entry(LongRows(rows)[k], query, withAuthor) == Failure(PostsFrom(rows, query, withAuthor).error)
              && forall j :: 0 <= j < k ==> Entry(LongRows(rows)[j], query, withAuthor).Success?
    decreases |rows|
  {
    var err := PostsFrom(rows, query, withAuthor).error;
    if |rows[0]| < 6 {
      PostsFromFirstFailure(rows[1..], query, withAuthor);
      var k :| 0 <= k < |LongRows(rows[1..])|
               && Entry(LongRows(rows[1..])[k], query, withAuthor) == Failure(err)
               && forall j :: 0 <= j < k ==> Entry(LongRows(rows[1..])[j], query, withAuthor).Success?;
      assert LongRows(rows) == LongRows(rows[1..]);
    } else {
      var kept := LongRows(rows);
      assert kept == [rows[0]] + LongRows(rows[1..]);
      var first := Entry(rows[0], query, withAuthor);
      if first.Failure? {
        assert Entry(kept[0], query, withAuthor) == Failure(err);
      } else {
        PostsFromFirstFailure(rows[1..], query, withAuthor);
        var k :| 0 <= k < |LongRows(rows[1..])|
                 && Entry(LongRows(rows[1..])[k], query, withAuthor) == Failure(err)
                 && forall j :: 0 <= j < k ==> Entry(LongRows(rows[1..])[j], query, withAuthor).Success?;
        assert kept[k + 1] == LongRows(rows[1..])[k];
        forall j | 0 <= j < k + 1 ensures Entry(kept[j], query, withAuthor).Success? {
          if j > 0 {
            assert kept[j] == LongRows(rows[1..])[j - 1];
          }
        }
      }
    }
  }

  /** Without the author lookup, a list depends on the rows alone: no other
      query is made. */
  lemma {:induction false} PostsFromWithoutLookup(rows: seq<Row>, q1: QueryFn, q2: QueryFn)
    ensures PostsFrom(rows, q1, false) == PostsFrom(rows, q2, false)
    decreases |rows|
  {
    if rows != [] {
      PostsFromWithoutLookup(rows[1..], q1, q2);
    }
  }

  /** The list of `GetAllPosts` as the query's reply determines it. */
  function AllPosts(query: QueryFn): Result<seq<Post>, string>
  {
    match query(AllPostsQuery)
    case Failure(e) => Failure(e)
    case Success(res) => PostsFrom(res.rows, query, true)
  }

  /** The list of `GetPostsByUserID` as the query's reply determines it. */
  function PostsByUser(query: QueryFn, userId: int): Result<seq<Post>, string>
  {
    match query(PostsByUserQuery(userId))
    case Failure(e) => Failure(e)
    case Success(res) => PostsFrom(res.rows, query, false)
  }

  /** The loop of `GetAllPosts` and `GetPostsByUserID`: walk the rows,
      skip the short ones, decode the others and append them. */
  method CollectPosts(rows: seq<Row>, query: QueryFn, withAuthor: bool) returns (r: Result<seq<Post>, string>)
    ensures r == PostsFrom(rows, query, withAuthor)
  {
    var posts: seq<Post> := [];
    var i := 0;
    assert rows[0..] == rows;
    match PostsFrom(rows, query, withAuthor) {
      case Failure(_) =>
      case Success(all) => assert [] + all == all;
    }
    while i < |rows|
      invariant 0 <= i <= |rows|
      invariant PostsFrom(rows, query, withAuthor) == Extend(posts, PostsFrom(rows[i..], query, withAuthor))
      decreases |rows| - i
    {
      var row := rows[i];
      assert rows[i..][0] == row && rows[i..][1..] == rows[i + 1..];
      if |row| < 6 {
        i := i + 1;
        continue;
      }
      var decoded := DecodePost(row);
      if decoded.Failure? {
        return Failure(decoded.error);
      }
      var post := decoded.value;
      if withAuthor {
        var enriched := WithAuthor(post, QueryRow(query, AuthorQuery(post.userId)));
        if enriched.Failure? {
          return Failure(enriched.error);
        }
        post := enriched.value;
      }
      match PostsFrom(rows[i + 1..], query, withAuthor) {
        case Failure(_) =>
        case Success(more) => assert posts + ([post] + more) == (posts + [post]) + more;
      }
      posts := posts + [post];
      i := i + 1;
    }
    assert rows[|rows|..] == [];
    assert posts + [] == posts;
    r := Success(posts);
  }

  /** `GetAllPosts`: every post, each enriched with its author when the
      lookup succeeds. */
  method GetAllPosts(query: QueryFn) returns (r: Result<seq<Post>, string>)
    ensures r == AllPosts(query)
  {
    var reply := query(AllPostsQuery);
    if reply.Failure? {
      return Failure(reply.error);
    }
    r := CollectPosts(reply.value.rows, query, true);
  }

  /** `GetPostsByUserID`: the user's posts, without author lookups. */
  method GetPostsByUserID(query: QueryFn, userId: int) returns (r: Result<seq<Post>, string>)
    ensures r == PostsByUser(query, userId)
  {
    var reply := query(PostsByUserQuery(userId));
    if reply.Failure? {
      return Failure(reply.error);
    }
    r := CollectPosts(reply.value.rows, query, false);
  }

  /** A user's list never carries author fields and never depends on any
      reply but that of its own query. */
  lemma PostsByUserWithoutAuthors(query: QueryFn, other: QueryFn, userId: int, i: nat)
    requires PostsByUser(query, userId).Success? && i < |PostsByUser(query, userId).value|
    requires other(PostsByUserQuery(userId)) == query(PostsByUserQuery(userId))
    ensures WithoutAuthor(PostsByUser(query, userId).value[i])
    ensures PostsByUser(other, userId) == PostsByUser(query, userId)
  {
    var rows := query(PostsByUserQuery(userId)).value.rows;
    var posts := PostsByUser(query, userId).value;
    PostsFromEntries(rows, query, false, posts);
    PostsFromWithoutLookup(rows, query, other);
  }

  // ---------------------------------------------------------------------
  // One post

  function PostByIdQuery(id: int): string
  {
    PostColumns + " WHERE id = " + Decimal(id)
  }

  /** `GetPostByID`: the store's error passes through, an empty result is
      "no rows found", a short row is "invalid row data"; a post is the
      positional reading of the first row, with author fields only from a
      successful lookup of three or more cells. */
  function GetPostByID(query: QueryFn, id: int): (r: Result<Post, string>)
    ensures var reply := query(PostByIdQuery(id));
            && (reply.Failure? ==> r == Failure(reply.error))
            && (reply.Success? && reply.value.rows == [] ==> r == Failure(NoRowsFound))
            && (reply.Success? && reply.value.rows != [] && |reply.value.rows[0]| < 6 ==> r == Failure(InvalidRowData))
            && (r.Success? ==> reply.Success? && reply.value.rows != [] && PostRow(r.value) == reply.value.rows[0][..6])
    ensures r.Success? ==>
              var author := QueryRow(query, AuthorQuery(r.value.userId));
              author.Failure? || |author.value| < 3 ==> WithoutAuthor(r.value)
    ensures var reply := query(PostByIdQuery(id));
            reply.Success? && reply.value.rows != [] && |reply.value.rows[0]| >= 6 ==>
              r == Entry(reply.value.rows[0], query, true)
  {
    match QueryRow(query, PostByIdQuery(id))
    case Failure(e) => Failure(e)
    case Success(row) =>
      if |row| < 6 then Failure(InvalidRowData)
      else Entry(row, query, true)
  }

  /** A stored post in the first row is returned: as it is when the author
      lookup fails or is short, which does not fail the post, and with the
      author's name, email and image when the lookup gives three text
      cells. */
  lemma GetPostByIDReturnsStoredPost(query: QueryFn, id: int, p: Post, extra: Row)
    requires WithoutAuthor(p)
    requires query(PostByIdQuery(id)).Success? && query(PostByIdQuery(id)).value.rows != []
    requires query(PostByIdQuery(id)).value.rows[0] == PostRow(p) + extra
    ensures var author := QueryRow(query, AuthorQuery(p.userId));
            author.Failure? || |author.value| < 3 ==> GetPostByID(query, id) == Success(p)
    ensures var author := QueryRow(query, AuthorQuery(p.userId));
            author.Success? && |author.value| >= 3
            && author.value[0].StrCell? && author.value[1].StrCell? && author.value[2].StrCell? ==>
              GetPostByID(query, id)
                == Success(p.(authorName := author.value[0].s, authorEmail := author.value[1].s,
                              authorImage := author.value[2].s))
  {
    DecodePostRow(p, extra);
  }

  // ---------------------------------------------------------------------
  // Updating and deleting

  const UpdateHead := "UPDATE posts SET title = '"

  /** The UPDATE of `UpdatePost`: it sets title, content and updated_at of
      the row with the given id, and no other column. */
  function UpdateStatement(id: int, p: UpdatePostParams, now: int): string
  {
    UpdateHead + (Escaped(p.title) + "'" + UpdateMiddle(id, p, now))
  }

  function UpdateMiddle(id: int, p: UpdatePostParams, now: int): string
  {
    ", content = '" + (Escaped(p.content) + "'" + UpdateTail(id, now))
  }

  function UpdateTail(id: int, now: int): string
  {
    ", updated_at = " + Decimal(now) + " WHERE id = " + Decimal(id)
  }

  /** The store reads the UPDATE's two quoted values back as the caller's
      title and content. */
  lemma UpdateLiterals(id: int, p: UpdatePostParams, now: int)
    ensures var stmt := UpdateStatement(id, p, now);
            var middle := UpdateMiddle(id, p, now);
            && StartsWith(stmt, UpdateHead)
            && ReadLiteral(stmt[|UpdateHead|..]) == Some((p.title, middle))
            && ReadLiteral(middle[|", content = '"|..]) == Some((p.content, UpdateTail(id, now)))
  {
    var middle, tail := UpdateMiddle(id, p, now), UpdateTail(id, now);
    var stmt := UpdateStatement(id, p, now);
    assert stmt[..|UpdateHead|] == UpdateHead;
    assert stmt[|UpdateHead|..] == Escaped(p.title) + [Quote] + middle;
    assert middle[0] == ',';
    ReadEscapedLiteral(p.title, middle);
    assert middle[|", content = '"|..] == Escaped(p.content) + [Quote] + tail;
    assert tail[0] == ',';
    ReadEscapedLiteral(p.content, tail);
  }

  /** After the content literal the UPDATE holds no quote: the time and the
      id cannot open a literal. */
  lemma UpdateTailHasNoQuote(id: int, now: int)
    ensures Quote !in UpdateTail(id, now)
  {
    DecimalHasNoQuote(id);
    DecimalHasNoQuote(now);
  }

  /** `UpdatePost`: the store's verdict on the UPDATE. */
  function UpdatePost(query: QueryFn, id: int, p: UpdatePostParams, now: int): (err: Option<string>)
    ensures err.Some? <==> query(UpdateStatement(id, p, now)).Failure?
    ensures err.Some? ==> err.value == query(UpdateStatement(id, p, now)).error
  {
    Execute(query, UpdateStatement(id, p, now))
  }

  function DeleteStatement(id: int): string
  {
    "DELETE FROM posts WHERE id = " + Decimal(id)
  }

  /** `DeletePost`: the store's verdict on the DELETE. */
  function DeletePost(query: QueryFn, id: int): (err: Option<string>)
    ensures err.Some? <==> query(DeleteStatement(id)).Failure?
    ensures err.Some? ==> err.value == query(DeleteStatement(id)).error
  {
    Execute(query, DeleteStatement(id))
  }

  // ---------------------------------------------------------------------
  // Ownership

  /** Go's `(bool, error)` result of `CheckPostOwnership`. */
  datatype Ownership = Ownership(isOwner: bool, err: Option<string>)

  /** The only outcome that permits a mutation. */
  const Owner := Ownership(true, None)

  function OwnerQuery(postId: int): string
  {
    "SELECT user_id FROM posts WHERE id = " + Decimal(postId)
  }

  /** The ownership verdict from the owner row: an error passes through
      with `false`, an empty row is "post not found", and otherwise the
      answer is whether the stored owner equals the candidate. */
  function OwnershipFromRow(row: Result<Row, string>, userId: int): (r: Ownership)
    ensures row.Failure? ==> r == Ownership(false, Some(row.error))
    ensures row == Success([]) ==> r == Ownership(false, Some(PostNotFound))
    ensures r.err.Some? ==> !r.isOwner
    ensures r.err.None? <==> row.Success? && |row.value| >= 1 && row.value[0].IntCell?
    ensures r == Owner <==> row.Success? && |row.value| >= 1 && row.value[0] == IntCell(userId)
  {
    match row
    case Failure(e) => Ownership(false, Some(e))
    case Success(cells) =>
      if |cells| < 1 then Ownership(false, Some(PostNotFound))
      else if cells[0].IntCell? then Ownership(cells[0].i == userId, None)
      else Ownership(false, Some(TypeMismatch))
  }

  /** `CheckPostOwnership`: a failing query gives its error, no row gives
      "no rows found", and a stored owner gives `(owner == userId, nil)`. */
  function CheckPostOwnership(query: QueryFn, postId: int, userId: int): (r: Ownership)
    ensures var reply := query(OwnerQuery(postId));
            && (reply.Failure? ==> r == Ownership(false, Some(reply.error)))
            && (reply.Success? && reply.value.rows == [] ==> r == Ownership(false, Some(NoRowsFound)))
            && (r == Owner <==> reply.Success? && reply.value.rows != [] && |reply.value.rows[0]| >= 1
                                && reply.value.rows[0][0] == IntCell(userId))
            && (reply.Success? && reply.value.rows != [] && |reply.value.rows[0]| >= 1 && reply.value.rows[0][0].IntCell? ==>
                  r == Ownership(reply.value.rows[0][0].i == userId, None))
  {
    OwnershipFromRow(QueryRow(query, OwnerQuery(postId)), userId)
  }

  /** A stored post owned by someone else gives a non-owner `(false, nil)`:
      no error, so the handler answers 403 rather than 404. */
  lemma NonOwnerIsFalseNil(query: QueryFn, postId: int, owner: int, userId: int, extra: Row)
    requires owner != userId
    requires query(OwnerQuery(postId)).Success? && query(OwnerQuery(postId)).value.rows != []
    requires query(OwnerQuery(postId)).value.rows[0] == [IntCell(owner)] + extra
    ensures CheckPostOwnership(query, postId, userId) == Ownership(false, None)
  {
    assert query(OwnerQuery(postId)).value.rows[0][0] == IntCell(owner);
  }

  /** The DELETE and the ownership query carry only a number and hold no
      quote at all, so no caller value can place a literal in them. */
  lemma NumericStatementsHaveNoLiteral(id: int)
    ensures Quote !in DeleteStatement(id) && Quote !in OwnerQuery(id)
  {
    DecimalHasNoQuote(id);
  }

  /** The check is a single equality: of two different candidates at most
      one is the owner. */
  lemma AtMostOneOwner(query: QueryFn, postId: int, a: int, b: int)
    requires a != b
    ensures !(CheckPostOwnership(query, postId, a) == Owner && CheckPostOwnership(query, postId, b) == Owner)
  {
  }
}
