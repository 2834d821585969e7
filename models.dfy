/** The records exchanged between repositories and handlers. Timestamps are
    Unix seconds (`time.Unix(sec, 0)` in the source); ids are the store's
    integer keys. */
module Models {

  /** A post as returned by the repository; the author fields are filled
      only on read paths that look the author up, and are empty otherwise. */
  datatype Post = Post(
    id: int,
    userId: int,
    title: string,
    content: string,
    createdAt: int,
    updatedAt: int,
    authorName: string,
    authorEmail: string,
    authorImage: string)

  datatype CreatePostParams = CreatePostParams(userId: int, title: string, content: string)

  datatype UpdatePostParams = UpdatePostParams(title: string, content: string)

  /** A registered user; `password` holds the password hash. */
  datatype User = User(
    id: int,
    email: string,
    password: string,
    name: string,
    image: string,
    role: string,
    createdAt: int)

  datatype CreateUserParams = CreateUserParams(email: string, password: string, name: string, image: string)

  /** The identity claims a session token carries (its registered claims,
      issuer and expiry, belong to the token library and are not modelled). */
  datatype Claims = Claims(email: string, userId: int, name: string, image: string, role: string)
}
