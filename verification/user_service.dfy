/**
 * The `users` table as the session core reads and writes it, and the
 * password-change service. The table is a sequence of rows in the order
 * the database returns them, so `rows[0]` of a query is the first row
 * that satisfies its `WHERE` clause. The queries have no `ORDER BY`, so
 * this one fixed order, which an `UPDATE` leaves in place, is a modelling
 * choice rather than a promise of the database.
 */
module UserService {
  import opened Wrappers
  import opened Errors
  import opened Crypto
  import JwtUtil

  type UserId = JwtUtil.UserId

  datatype UserRow = UserRow(id: UserId, login: string, passwordHash: string, hasLoggedIn: bool, role: string)

  type Users = seq<UserRow>

  /** The two `WHERE` clauses the core uses: `user_id = $1` and `login = $1`. */
  datatype Where = IdIs(id: UserId) | LoginIs(login: string)

  predicate Matches(u: UserRow, w: Where) {
    match w
    case IdIs(id) => u.id == id
    case LoginIs(login) => u.login == login
  }

  /** The position of the first row satisfying `w`, if any. */
  function FirstMatch(users: Users, w: Where): (r: Option<nat>)
    ensures r.Some? ==> r.value < |users| && Matches(users[r.value], w)
    ensures r.Some? ==> forall j :: 0 <= j < r.value ==> !Matches(users[j], w)
    ensures r.None? <==> forall j :: 0 <= j < |users| ==> !Matches(users[j], w)
  {
    if users == [] then None
    else if Matches(users[0], w) then Some(0)
    else
      match FirstMatch(users[1..], w)
      case None => None
      case Some(i) => Some(i + 1)
  }

  /** `SELECT * FROM users WHERE …` followed by `rows[0]`. */
  function SelectFirst(users: Users, w: Where): (r: Option<UserRow>)
    ensures r.Some? ==> r.value in users && Matches(r.value, w)
    ensures r.None? <==> forall u :: u in users ==> !Matches(u, w)
  {
    match FirstMatch(users, w)
    case None => None
    case Some(i) => Some(users[i])
  }

  /** No two rows share a `user_id` (it is the table's key). */
  predicate UniqueIds(users: Users) {
    forall i, j :: 0 <= i < j < |users| ==> users[i].id != users[j].id
  }

  /** With unique ids, looking a row up by its own id finds that row. */
  lemma SelectOwnId(users: Users, u: UserRow)
    requires UniqueIds(users)
    requires u in users
    ensures SelectFirst(users, IdIs(u.id)) == Some(u)
  {
  }

  /** A row after `UPDATE users SET password = hash, has_logged_in = true WHERE user_id = id`. */
  function WithPassword(u: UserRow, id: UserId, hash: string): UserRow {
    if u.id == id then u.(passwordHash := hash, hasLoggedIn := true) else u
  }

  /**
   * The `UPDATE` statement: every row with the given `user_id` gets the new
   * hash and has `has_logged_in` set; no other row changes, and no row
   * changes its id, login or role.
   */
  function SetPassword(users: Users, id: UserId, hash: string): (r: Users)
    ensures |r| == |users|
    ensures forall i :: 0 <= i < |r| ==>
      r[i].id == users[i].id && r[i].login == users[i].login && r[i].role == users[i].role
    ensures forall i :: 0 <= i < |r| && users[i].id != id ==> r[i] == users[i]
    ensures forall i :: 0 <= i < |r| && users[i].id == id ==> r[i].passwordHash == hash && r[i].hasLoggedIn
  {
    seq(|users|, i requires 0 <= i < |users| => WithPassword(users[i], id, hash))
  }

  /** Two tables whose rows agree on every `WHERE` clause agree on the first match. */
  lemma FirstMatchAgrees(a: Users, b: Users, w: Where)
    requires |a| == |b|
    requires forall i :: 0 <= i < |a| ==> (Matches(a[i], w) <==> Matches(b[i], w))
    ensures FirstMatch(a, w) == FirstMatch(b, w)
  {
  }

  /**
   * After the `UPDATE`, every query finds the same row as before, with the
   * new password applied when it is the updated user's row.
   */
  lemma SelectAfterSetPassword(users: Users, id: UserId, hash: string, w: Where)
    ensures SelectFirst(SetPassword(users, id, hash), w) ==
      match SelectFirst(users, w)
      case None => None
      case Some(u) => Some(WithPassword(u, id, hash))
  {
  }

  const USER_NOT_FOUND: Failure := AppError("User not found", 404)
  const INVALID_OLD_PASSWORD: Failure := AppError("Invalid old password", 401)
  const PASSWORDS_DIFFER: Failure := AppError("Passwords are not the same", 400)

  /**
   * `updatePassword(userId, oldPassword, newPassword, confirmPassword)`.
   * The checks run in a fixed order: the user exists, the old password
   * matches the stored hash, the new password equals its confirmation.
   * Only then is the new password hashed (with the salt `salt`) and stored.
   */
  function UpdatePassword(bcrypt: Bcrypt, users: Users, id: UserId, oldPassword: string,
                          newPassword: string, confirmPassword: string, salt: string): (r: Result<Users, Failure>)
    ensures SelectFirst(users, IdIs(id)).None? ==> r == Err(USER_NOT_FOUND)
    ensures (SelectFirst(users, IdIs(id)).Some?
             && !bcrypt.compare(oldPassword, SelectFirst(users, IdIs(id)).value.passwordHash))
      ==> r == Err(INVALID_OLD_PASSWORD)
    ensures (SelectFirst(users, IdIs(id)).Some?
             && bcrypt.compare(oldPassword, SelectFirst(users, IdIs(id)).value.passwordHash)
             && newPassword != confirmPassword)
      ==> r == Err(PASSWORDS_DIFFER)
    ensures r.Ok? ==> r.value == SetPassword(users, id, bcrypt.hash(newPassword, salt))
    ensures r.Ok? <==>
      SelectFirst(users, IdIs(id)).Some? && bcrypt.compare(oldPassword, SelectFirst(users, IdIs(id)).value.passwordHash)
      && newPassword == confirmPassword
  {
    match SelectFirst(users, IdIs(id))
    case None => Err(USER_NOT_FOUND)
    case Some(u) =>
      if !bcrypt.compare(oldPassword, u.passwordHash) then Err(INVALID_OLD_PASSWORD)
      else if newPassword != confirmPassword then Err(PASSWORDS_DIFFER)
      else Ok(SetPassword(users, id, bcrypt.hash(newPassword, salt)))
  }

  /**
   * After a successful change the user's row carries the hash of the new
   * password, which the new password verifies against, and has
   * `has_logged_in` set; every other user's row reads as before.
   */
  lemma UpdatePasswordEffect(bcrypt: Bcrypt, users: Users, id: UserId, oldPassword: string,
                             newPassword: string, confirmPassword: string, salt: string, other: UserId)
    requires BcryptSound(bcrypt)
    requires UpdatePassword(bcrypt, users, id, oldPassword, newPassword, confirmPassword, salt).Ok?
    requires other != id
    ensures var users' := UpdatePassword(bcrypt, users, id, oldPassword, newPassword, confirmPassword, salt).value;
      && SelectFirst(users', IdIs(id)).Some?
      && SelectFirst(users', IdIs(id)).value
           == SelectFirst(users, IdIs(id)).value.(passwordHash := bcrypt.hash(newPassword, salt), hasLoggedIn := true)
      && bcrypt.compare(newPassword, SelectFirst(users', IdIs(id)).value.passwordHash)
      && SelectFirst(users', IdIs(other)) == SelectFirst(users, IdIs(other))
  {
    var hash := bcrypt.hash(newPassword, salt);
    SelectAfterSetPassword(users, id, hash, IdIs(id));
    SelectAfterSetPassword(users, id, hash, IdIs(other));
  }
}
