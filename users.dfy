/** The user table behind `auth`: rows of name, password and e-mail, with a
    hard-coded administrator that bypasses the table. */
module Users {
  import opened Common

  /** The fields of one row as `auth` writes them to `users_hud.csv`. */
  datatype UserRow = UserRow(u: string, p: string, e: string)

  /** A field as `pd.read_csv` gives it back: text, or NaN. */
  datatype Cell = Text(text: string) | Nan

  /** The fields `pd.read_csv` reads as NaN under its default `na_values`:
      the blank field and the usual spellings of a missing value. */
  const NaTokens: set<string> :=
    {"", "#N/A", "#N/A N/A", "#NA", "-1.#IND", "-1.#QNAN", "-NaN", "-nan", "1.#IND", "1.#QNAN",
     "<NA>", "N/A", "NA", "NULL", "NaN", "None", "n/a", "nan", "null"}

  predicate NaToken(s: string) {
    s in NaTokens
  }

  /** Reading a written field back: exactly the NA spellings become NaN,
      and every other field comes back as its text. */
  function ReadCell(s: string): (c: Cell)
    ensures c.Nan? <==> NaToken(s)
    ensures c.Text? ==> c.text == s
  {
    if NaToken(s) then Nan else Text(s)
  }

  /** `str(c)`: NaN prints as "nan". */
  function CellStr(c: Cell): string {
    match c
    case Text(s) => s
    case Nan => "nan"
  }

  /** `auth`'s `mode` argument: `"login"` logs in and any other value registers. */
  datatype Mode = SignIn | Register

  const AdminName := "admin"
  const AdminPass := "admin123"
  const AdminEmail := "admin@system.com"

  /** `u in df['u'].values`. A name spelled as an NA token was read back
      as NaN, which is equal to no string, so such a name is never taken. */
  ghost predicate NameTaken(rows: seq<UserRow>, u: string) {
    !NaToken(u) && exists k :: 0 <= k < |rows| && rows[k].u == u
  }

  /** Row `k` is the first row named `u`: `df[df['u'] == u].iloc[0]`. */
  ghost predicate IsFirstNamed(rows: seq<UserRow>, u: string, k: int) {
    !NaToken(u) && 0 <= k < |rows| && rows[k].u == u && forall j :: 0 <= j < k ==> rows[j].u != u
  }

  /** No name that reads back as text appears in two rows. */
  ghost predicate DistinctNames(rows: seq<UserRow>) {
    forall i, j :: 0 <= i < j < |rows| && !NaToken(rows[i].u) ==> rows[i].u != rows[j].u
  }

  /** The position of the first row named `u`, if any. */
  function FindUser(rows: seq<UserRow>, u: string): (k: Option<nat>)
    ensures k.Some? ==> IsFirstNamed(rows, u, k.value)
    ensures k.None? <==> !NameTaken(rows, u)
  {
    if rows == [] || NaToken(u) then None
    else if rows[0].u == u then Some(0)
    else match FindUser(rows[1..], u)
      case None => None
      case Some(k) => Some(k + 1)
  }

  /** The login branch of `auth` once the administrator check has failed:
      it succeeds exactly when the first row of that name has a password
      that prints as `p`, and then answers with that row's e-mail cell. */
  function CheckLogin(rows: seq<UserRow>, u: string, p: string): (r: (bool, Option<Cell>))
    ensures r.0 <==> exists k :: IsFirstNamed(rows, u, k) && CellStr(ReadCell(rows[k].p)) == p
    ensures r.0 ==> exists k :: IsFirstNamed(rows, u, k) && r.1 == Some(ReadCell(rows[k].e))
    ensures !r.0 ==> r.1 == None
  {
    match FindUser(rows, u)
    case None => (false, None)
    case Some(k) => if CellStr(ReadCell(rows[k].p)) == p then (true, Some(ReadCell(rows[k].e))) else (false, None)
  }

  /** What `auth` answers in login mode: the administrator's fixed
      credentials bypass the table, everyone else goes through `CheckLogin`. */
  function LoginReply(rows: seq<UserRow>, u: string, p: string): (r: (bool, Option<Cell>))
    ensures u == AdminName && p == AdminPass ==> r == (true, Some(Text(AdminEmail)))
    ensures !(u == AdminName && p == AdminPass) ==> r == CheckLogin(rows, u, p)
  {
    if u == AdminName && p == AdminPass then (true, Some(Text(AdminEmail))) else CheckLogin(rows, u, p)
  }

  /** A name that reads back as text, registered into a table that lacked
      it, logs in with the password it was registered with, as read back,
      and gets back its e-mail as read back. */
  lemma RegisterThenLogin(rows: seq<UserRow>, u: string, p: string, e: string)
    requires !NaToken(u) && !NameTaken(rows, u)
    ensures CheckLogin(rows + [UserRow(u, p, e)], u, CellStr(ReadCell(p))) == (true, Some(ReadCell(e)))
  {
    var rows' := rows + [UserRow(u, p, e)];
    assert IsFirstNamed(rows', u, |rows|);
  }

  /** A name registered with a password spelled as an NA token ("", "NA",
      "null", ...) logs in with "nan" and with nothing else, not even with
      that password; an e-mail spelled as an NA token comes back as NaN. */
  lemma MissingFieldsReadBack(rows: seq<UserRow>, u: string, pw: string, e: string, p: string)
    requires !NaToken(u) && !NameTaken(rows, u) && NaToken(pw)
    ensures CheckLogin(rows + [UserRow(u, pw, e)], u, p).0 <==> p == "nan"
    ensures NaToken(e) ==> CheckLogin(rows + [UserRow(u, pw, e)], u, "nan").1 == Some(Nan)
  {
    var rows' := rows + [UserRow(u, pw, e)];
    assert IsFirstNamed(rows', u, |rows|);
  }

  /** A user registered with password "NA" is refused when logging in with "NA". */
  lemma NaPasswordRefused()
    ensures !CheckLogin([UserRow("bob", "NA", "bob@example.com")], "bob", "NA").0
  {
    MissingFieldsReadBack([], "bob", "NA", "bob@example.com", "NA");
  }

  /** A name spelled as an NA token never logs in through the table. */
  lemma NaNameNeverLogsIn(rows: seq<UserRow>, u: string, p: string)
    requires NaToken(u)
    ensures CheckLogin(rows, u, p) == (false, None)
  {
  }

  /** The CSV file `users_hud.csv`, held in memory. */
  class UserStore {
    var rows: seq<UserRow>

    /** A fresh file holds the header only. */
    constructor ()
      ensures rows == []
    {
      rows := [];
    }

    /** `auth(u, p, e, mode)`: `"login"` logs in, any other mode
        registers; the e-mail argument is used only when registering. The
        second result is the e-mail cell on login and "Taken" or "Success"
        on registration. */
    method Auth(u: string, p: string, e: string, mode: Mode) returns (ok: bool, info: Option<Cell>)
      modifies this
      ensures u == AdminName && p == AdminPass ==>
        ok && info == Some(Text(AdminEmail)) && rows == old(rows)
      ensures mode == SignIn ==> (ok, info) == LoginReply(old(rows), u, p) && rows == old(rows)
      ensures !(u == AdminName && p == AdminPass) && mode == Register && NameTaken(old(rows), u) ==>
        !ok && info == Some(Text("Taken")) && rows == old(rows)
      ensures !(u == AdminName && p == AdminPass) && mode == Register && !NameTaken(old(rows), u) ==>
        ok && info == Some(Text("Success")) && rows == old(rows) + [UserRow(u, p, e)]
      ensures mode == Register && DistinctNames(old(rows)) ==> DistinctNames(rows)
    {
      if u == AdminName && p == AdminPass {
        return true, Some(Text(AdminEmail));
      }
      if mode == SignIn {
        var r := CheckLogin(rows, u, p);
        return r.0, r.1;
      }
      if FindUser(rows, u).Some? {
        return false, Some(Text("Taken"));
      }
      rows := rows + [UserRow(u, p, e)];
      ok, info := true, Some(Text("Success"));
    }
  }
}
