/** What the auth collaborator reports about the caller. */
module Session {
  import opened Wrappers

  /** The signed-in user: its id and the profile fields the pages read (`user_metadata.full_name`, `avatar_url`). */
  datatype User = User(id: string, email: Option<string>, fullName: Option<string>, avatarUrl: Option<string>)

  /** The answer of `auth.getUser()`: `data.user` and `error`. */
  datatype GetUserResult = GetUserResult(user: Option<User>, error: Option<string>)
}
