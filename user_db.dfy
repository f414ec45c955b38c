/** The `users` table of the local SQLite database and its two operations,
    registration (an INSERT) and login (a SELECT).

    The table is declared with an AUTOINCREMENT integer primary key and two
    UNIQUE text columns, `username` and `email`; the password is stored as
    given. The table only ever grows: no operation deletes or updates a row. */
module UserDb {
  import opened Base

  /** The largest rowid SQLite can issue (a signed 64-bit integer). */
  const MaxRowId: nat := 0x7FFF_FFFF_FFFF_FFFF

  /** One row of `users`. */
  datatype UserRow = UserRow(id: nat, username: string, email: string, password: string)

  /** Why an INSERT into `users` is refused: a UNIQUE constraint would break,
      or the AUTOINCREMENT counter has reached the largest rowid (SQLITE_FULL). */
  datatype DbError = UniqueViolation | DatabaseFull

  /** The invariant of the table, given the AUTOINCREMENT counter `lastId`
      (the value SQLite keeps in `sqlite_sequence`): every id lies in
      1..lastId, rows are in increasing id order, and ids, usernames and
      emails are pairwise distinct. */
  ghost predicate WellFormed(rows: seq<UserRow>, lastId: nat)
  {
    && lastId <= MaxRowId
    && (forall i :: 0 <= i < |rows| ==> 1 <= rows[i].id <= lastId)
    && (forall i, j :: 0 <= i < j < |rows| ==> rows[i].id < rows[j].id)
    && (forall i, j :: 0 <= i < j < |rows| ==> rows[i].username != rows[j].username)
    && (forall i, j :: 0 <= i < j < |rows| ==> rows[i].email != rows[j].email)
  }

  /** An INSERT of (username, email) would break a UNIQUE constraint: some
      row already has that username or that email. */
  function Taken(rows: seq<UserRow>, username: string, email: string): (b: bool)
    ensures b <==> exists i :: 0 <= i < |rows| && (rows[i].username == username || rows[i].email == email)
  {
    if rows == [] then false
    else rows[0].username == username || rows[0].email == email || Taken(rows[1..], username, email)
  }

  /** `SELECT * FROM users WHERE email = ? AND password = ?` answered with
      `db.get`: the matching row (at most one in a well-formed table, see
      LoginExact), or no row. */
  function LoginUser(rows: seq<UserRow>, email: string, password: string): (r: Option<UserRow>)
    ensures r.Some? ==> r.value in rows && r.value.email == email && r.value.password == password
    ensures r.None? <==> forall i :: 0 <= i < |rows| ==> !(rows[i].email == email && rows[i].password == password)
  {
    if rows == [] then None
    else if rows[0].email == email && rows[0].password == password then Some(rows[0])
    else LoginUser(rows[1..], email, password)
  }

  /** In a well-formed table, login with (email, password) finds exactly the
      row holding both: a row is returned if and only if it matches, and an
      unknown email and a wrong password both give no row. */
  lemma LoginExact(rows: seq<UserRow>, lastId: nat, email: string, password: string, row: UserRow)
    requires WellFormed(rows, lastId)
    ensures LoginUser(rows, email, password) == Some(row)
        <==> row in rows && row.email == email && row.password == password
  {
  }

  /** The row a successful registration appends, and the counter afterwards,
      keep the table well formed: the new id exceeds every id issued before. */
  lemma InsertKeepsWellFormed(rows: seq<UserRow>, lastId: nat, username: string, email: string, password: string)
    requires WellFormed(rows, lastId)
    requires lastId < MaxRowId && !Taken(rows, username, email)
    ensures WellFormed(rows + [UserRow(lastId + 1, username, email, password)], lastId + 1)
    ensures forall i :: 0 <= i < |rows| ==> rows[i].id < lastId + 1
  {
  }

  /** Round trip: after a successful registration of (username, email,
      password), login with (email, password) returns the new row, since the
      password is stored verbatim and no older row has that email. */
  lemma {:induction false} RegisterThenLogin(rows: seq<UserRow>, lastId: nat, username: string, email: string, password: string)
    requires WellFormed(rows, lastId)
    requires lastId < MaxRowId && !Taken(rows, username, email)
    ensures LoginUser(rows + [UserRow(lastId + 1, username, email, password)], email, password)
         == Some(UserRow(lastId + 1, username, email, password))
  {
    var row := UserRow(lastId + 1, username, email, password);
    InsertKeepsWellFormed(rows, lastId, username, email, password);
    assert (rows + [row])[|rows|] == row;
    LoginExact(rows + [row], lastId + 1, email, password, row);
  }

  /** The `users` table as the database holds it: its rows in rowid order and
      the AUTOINCREMENT counter. */
  class UserTable {
    var rows: seq<UserRow>
    var lastId: nat

    ghost predicate Valid()
      reads this
    {
      WellFormed(rows, lastId)
    }

    /** `CREATE TABLE IF NOT EXISTS users (...)` on a fresh database. */
    constructor ()
      ensures Valid() && rows == [] && lastId == 0
    {
      rows := [];
      lastId := 0;
    }

    /** `registerUser`: `INSERT INTO users (username, email, password)`.
        On success the new row is appended and its id (`this.lastID`) is
        returned; on failure (`callback(err)`) nothing changes. */
    method RegisterUser(username: string, email: string, password: string) returns (res: Result<nat, DbError>)
      requires Valid()
      modifies this
      ensures Valid()
      ensures res.Err? <==> lastId == old(lastId) && rows == old(rows)
      ensures res == Err(DatabaseFull) <==> old(lastId) == MaxRowId
      ensures res == Err(UniqueViolation) <==> old(lastId) < MaxRowId && Taken(old(rows), username, email)
      ensures res.Ok? ==> res.value == lastId == old(lastId) + 1
      ensures res.Ok? ==> rows == old(rows) + [UserRow(res.value, username, email, password)]
      ensures res.Ok? ==> forall i :: 0 <= i < |old(rows)| ==> old(rows)[i].id < res.value
    {
      if lastId == MaxRowId {
        return Err(DatabaseFull);
      }
      if Taken(rows, username, email) {
        return Err(UniqueViolation);
      }
      InsertKeepsWellFormed(rows, lastId, username, email, password);
      lastId := lastId + 1;
      rows := rows + [UserRow(lastId, username, email, password)];
      res := Ok(lastId);
    }
  }
}
