/** No request of one user reaches another user's sessions or tokens. */
module SessionIsolation {
  import opened Options
  import opened SessionStore
  import opened SessionProtocol
  import opened SessionInvariants

  function OwnerOf(db: Db, f: SessionId): Option<UserId> {
    if f in db.sessions then Some(db.sessions[f].user) else None
  }

  function HolderOf(db: Db, t: TokenId): Option<UserId> {
    if t in db.tokens then Some(db.tokens[t].user) else None
  }

  /** The user a request under way works for. */
  function OnBehalfOf(db: Db, proc: Proc): Option<UserId> {
    match proc
    case Minted(user, _, _, _) => Some(user)
    case Recorded(user, _, _, _) => Some(user)
    case Parsed(token) => HolderOf(db, token)
    case Resolved(_, user, _, _) => Some(user)
    case Stamped(_, user, _, _) => Some(user)
    case Renewed(_, user, _, _, _) => Some(user)
    case Ending(family) => OwnerOf(db, family)
    case EndingRow(family) => OwnerOf(db, family)
    case Owned(user, _) => Some(user)
    case OwnedRow(user, _) => Some(user)
    case Sweeping(user, _) => Some(user)
  }

  /** The user a step is taken for; the clock's steps are nobody's. */
  function Actor(s: State, a: Action): Option<UserId> {
    match a
    case Tick(_) => None
    case LoginMint(_, user, _, _) => Some(user)
    case Present(_, token) => HolderOf(s.db, token)
    case Logout(_, token) => HolderOf(s.db, token)
    case Revoke(_, user, _) => Some(user)
    case BulkRows(_, user, _) => Some(user)
    case _ => if a.p in s.procs then OnBehalfOf(s.db, s.procs[a.p]) else None
  }

  /** The tables of `was` and `now` agree on everything of other users, and all
      that is new belongs to `user`. */
  ghost predicate OthersUntouched(was: Db, now: Db, user: Option<UserId>) {
    && (forall f :: f in was.sessions && user != Some(was.sessions[f].user) ==>
          f in now.sessions && now.sessions[f] == was.sessions[f])
    && (forall k :: k in was.tokens && user != Some(was.tokens[k].user) ==>
          k in now.tokens && now.tokens[k] == was.tokens[k])
    && (forall f :: f in now.sessions && f !in was.sessions ==> user == Some(now.sessions[f].user))
    && (forall k :: k in now.tokens && k !in was.tokens ==> user == Some(now.tokens[k].user))
  }

  // A family's tokens are all its owner's.
  lemma FamilyIsItsOwners(s: State, f: SessionId)
    requires Tied(s)
    ensures forall k :: k in s.db.tokens && s.db.tokens[k].family == f ==> OwnerOf(s.db, f) == Some(s.db.tokens[k].user)
  {
    assert forall k :: k in s.db.tokens ==> TokenTied(s, s.db.tokens[k]);
  }

  lemma FamilyStatementStays(s: State, f: SessionId)
    requires Tied(s)
    ensures OthersUntouched(s.db, RevokeFamily(s.db, f), OwnerOf(s.db, f))
  {
    FamilyIsItsOwners(s, f);
  }

  lemma RowStatementStays(s: State, f: SessionId)
    ensures OthersUntouched(s.db, RevokeRow(s.db, f), OwnerOf(s.db, f))
    ensures forall user :: OthersUntouched(s.db, RevokeOwnRow(s.db, user, f), Some(user))
  {
  }

  lemma BulkStatementStays(s: State, user: UserId, spared: Option<SessionId>)
    ensures OthersUntouched(s.db, RevokeRows(s.db, BulkTargets(s.db, user, s.now, spared)), Some(user))
  {
  }

  lemma LoginStays(s: State, a: Action, t: State)
    requires Inv(s) && Step(s, a) == Some(t) && (a.LoginRecord? || a.LoginStart?)
    ensures OthersUntouched(s.db, t.db, Actor(s, a))
  {
    assert Held(s.procs[a.p]).Some?;
    assert Fresh(s) && ProcTied(s, s.procs[a.p]);
  }

  lemma RefreshStays(s: State, a: Action, t: State)
    requires Inv(s) && Step(s, a) == Some(t) && (a.Stamp? || a.Spend?)
    ensures OthersUntouched(s.db, t.db, Actor(s, a))
  {
    assert ProcTied(s, s.procs[a.p]);
    FamilyIsItsOwners(s, s.procs[a.p].family);
  }

  lemma EndingStays(s: State, a: Action, t: State)
    requires Inv(s) && Step(s, a) == Some(t)
    requires (a.EndFamily? || a.EndRow? || a.RevokeTokens? || a.RevokeOwn? || a.BulkTokens?)
    ensures OthersUntouched(s.db, t.db, Actor(s, a))
  {
    var proc := s.procs[a.p];
    assert ProcTied(s, proc);
    var f := if a.BulkTokens? then a.family else if a.EndFamily? || a.EndRow? then proc.family else proc.sid;
    FamilyStatementStays(s, f);
    RowStatementStays(s, f);
    assert Actor(s, a) == OwnerOf(s.db, f);
  }

  /** No step touches a session or a token of any user but the one it is taken
      for, and whatever it adds belongs to that user. */
  lemma StepLeavesOthersAlone(s: State, a: Action, t: State)
    requires Inv(s) && Step(s, a) == Some(t)
    ensures OthersUntouched(s.db, t.db, Actor(s, a))
  {
    match a {
      case BulkRows(_, user, spared) => BulkStatementStays(s, user, spared);
      case LoginRecord(_) => LoginStays(s, a, t);
      case LoginStart(_) => LoginStays(s, a, t);
      case Stamp(_, _) => RefreshStays(s, a, t);
      case Spend(_) => RefreshStays(s, a, t);
      case EndFamily(_, _) => EndingStays(s, a, t);
      case EndRow(_) => EndingStays(s, a, t);
      case RevokeTokens(_) => EndingStays(s, a, t);
      case RevokeOwn(_) => EndingStays(s, a, t);
      case BulkTokens(_, _, _) => EndingStays(s, a, t);
      case _ =>
    }
  }

  /** The run has no step taken for the user. */
  ghost predicate Idle(s: State, acts: seq<Action>, user: UserId)
    decreases |acts|
  {
    acts == [] || (
      && Actor(s, acts[0]) != Some(user)
      && (Step(s, acts[0]).Some? ==> Idle(Step(s, acts[0]).value, acts[1..], user)))
  }

  /** The user has the same sessions and tokens in both, down to every field. */
  ghost predicate SameFor(was: Db, now: Db, user: UserId) {
    && (forall f :: OwnerOf(was, f) == Some(user) <==> OwnerOf(now, f) == Some(user))
    && (forall f :: OwnerOf(was, f) == Some(user) ==> now.sessions[f] == was.sessions[f])
    && (forall k :: HolderOf(was, k) == Some(user) <==> HolderOf(now, k) == Some(user))
    && (forall k :: HolderOf(was, k) == Some(user) ==> now.tokens[k] == was.tokens[k])
  }

  lemma SameForOthers(s: State, a: Action, t: State, user: UserId)
    requires Inv(s) && Step(s, a) == Some(t) && Actor(s, a) != Some(user)
    ensures SameFor(s.db, t.db, user)
  {
    StepLeavesOthersAlone(s, a, t);
    StepGrows(s, a, t);
  }

  /** Over any run in which nothing is done for a user, their sessions and tokens
      stay exactly as they were. */
  lemma {:induction false} RunLeavesTheIdleAlone(s: State, acts: seq<Action>, t: State, user: UserId)
    requires Inv(s) && Run(s, acts) == Some(t) && Idle(s, acts, user)
    ensures SameFor(s.db, t.db, user)
    decreases |acts|
  {
    if acts != [] {
      var mid := Step(s, acts[0]).value;
      StepKeeps(s, acts[0], mid);
      SameForOthers(s, acts[0], mid, user);
      RunLeavesTheIdleAlone(mid, acts[1..], t, user);
    }
  }
}
