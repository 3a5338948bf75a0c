/**
 * The refresh-token table. Each live token string maps to the account that owns it;
 * keying the map by token is the table's uniqueness constraint on the token column,
 * so the map is exactly a set of (owner, token) records unique by token.
 */
module TokenStore {
  import opened Accounts
  import opened Jwt

  type Store = map<Token, Id>

  /** The live tokens of one account. */
  function RecordsOf(s: Store, u: Id): set<Token> {
    set t | t in s && s[t] == u
  }

  /** The lookup scoped to an account: is `t` a live record owned by `u`? */
  predicate IsLiveFor(s: Store, u: Id, t: Token) {
    t in s && s[t] == u
  }

  /** Records a new live token for an account. */
  function Insert(s: Store, t: Token, u: Id): (s': Store)
    requires t !in s
    ensures IsLiveFor(s', u, t)
    ensures s'.Keys == s.Keys + {t}
    ensures |s'| == |s| + 1
    ensures forall t' :: t' in s ==> s'[t'] == s[t']
    ensures RecordsOf(s', u) == RecordsOf(s, u) + {t}
    ensures forall v :: v != u ==> RecordsOf(s', v) == RecordsOf(s, v)
  {
    InsertSize(s, t, u);
    InsertRecords(s, t, u);
    s[t := u]
  }

  lemma InsertRecords(s: Store, t: Token, u: Id)
    requires t !in s
    ensures RecordsOf(s[t := u], u) == RecordsOf(s, u) + {t}
    ensures forall v :: v != u ==> RecordsOf(s[t := u], v) == RecordsOf(s, v)
  {
  }

  lemma InsertSize(s: Store, t: Token, u: Id)
    requires t !in s
    ensures |s[t := u]| == |s| + 1
  {
  }

  /** Removes the record of one token; removing an absent token changes nothing. */
  function DeleteByToken(s: Store, t: Token): (s': Store)
    ensures t !in s'
    ensures s'.Keys == s.Keys - {t}
    ensures forall t' :: t' in s' ==> s'[t'] == s[t']
    ensures t !in s ==> s' == s
    ensures |s'| == if t in s then |s| - 1 else |s|
    ensures forall v :: t in s && v == s[t] ==> RecordsOf(s', v) == RecordsOf(s, v) - {t}
    ensures forall v :: (t !in s || v != s[t]) ==> RecordsOf(s', v) == RecordsOf(s, v)
  {
    s - {t}
  }

  /** Mass revocation: removes every record of one account and no other. */
  function DeleteAllFor(s: Store, u: Id): (s': Store)
    ensures RecordsOf(s', u) == {}
    ensures forall v :: v != u ==> RecordsOf(s', v) == RecordsOf(s, v)
    ensures forall t :: t in s' <==> t in s && s[t] != u
    ensures forall t :: t in s' ==> s'[t] == s[t]
  {
    map t | t in s && s[t] != u :: s[t]
  }
}
