/**
 * The account directory: the user table the controller reads and writes.
 * Usernames and emails are unique columns, so lookups by either find at most one account.
 */
module Accounts {
  import opened Wrappers

  /** Account identifiers, as the database assigns them. */
  type Id = nat

  datatype Account = Account(username: string, email: string, passwordHash: string, role: string)

  type Directory = map<Id, Account>

  predicate UsernamesUnique(d: Directory) {
    forall a, b :: a in d && b in d && d[a].username == d[b].username ==> a == b
  }

  predicate EmailsUnique(d: Directory) {
    forall a, b :: a in d && b in d && d[a].email == d[b].email ==> a == b
  }

  predicate UsernameTaken(d: Directory, username: string) {
    exists id :: id in d && d[id].username == username
  }

  predicate EmailTaken(d: Directory, email: string) {
    exists id :: id in d && d[id].email == email
  }

  /** Creating an account under a fresh id adds exactly that account. */
  function Create(d: Directory, id: Id, a: Account): (d': Directory)
    requires id !in d
    ensures d'.Keys == d.Keys + {id}
    ensures |d'| == |d| + 1
    ensures d'[id] == a
    ensures forall other :: other in d ==> d'[other] == d[other]
  {
    CreateSize(d, id, a);
    d[id := a]
  }

  lemma CreateSize(d: Directory, id: Id, a: Account)
    requires id !in d
    ensures |d[id := a]| == |d| + 1
  {
  }

  /** Creating an account whose username and email are not taken keeps both columns unique. */
  lemma CreateKeepsUnique(d: Directory, id: Id, a: Account)
    requires UsernamesUnique(d) && EmailsUnique(d)
    requires id !in d
    requires !UsernameTaken(d, a.username) && !EmailTaken(d, a.email)
    ensures UsernamesUnique(Create(d, id, a)) && EmailsUnique(Create(d, id, a))
  {
  }

  /** The lookup by the unique email column. */
  function FindByEmail(d: Directory, email: string): (r: Option<Id>)
    requires EmailsUnique(d)
    ensures r.Some? <==> EmailTaken(d, email)
    ensures r.Some? ==> r.value in d && d[r.value].email == email
    ensures forall id :: id in d && d[id].email == email ==> r == Some(id)
  {
    if EmailTaken(d, email) then
      var id :| id in d && d[id].email == email;
      Some(id)
    else
      None
  }
}
