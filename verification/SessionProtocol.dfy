/** Login, refresh, logout and revocation as processes whose statements
    interleave freely. Every step is one statement of a handler. */
module SessionProtocol {
  import opened Options
  import opened SessionStore

  // Times are nanoseconds; a signed token carries its expiry in whole seconds.
  const SECOND := 1_000_000_000
  const ACCESS_TTL := 15 * 60 * SECOND
  const REFRESH_TTL := 30 * 24 * 60 * 60 * SECOND

  function WholeSeconds(time: int): int {
    time - time % SECOND
  }

  type Pid = int

  /** What a request has done so far. */
  datatype Proc =
    // login: tokens minted, then the session row written
    | Minted(user: UserId, sid: SessionId, deadline: int, refresh: TokenId)
    | Recorded(user: UserId, sid: SessionId, deadline: int, refresh: TokenId)
    // refresh: token parsed, found live, activity stamped, successor minted
    | Parsed(token: TokenId)
    | Resolved(token: TokenId, user: UserId, family: SessionId, exp: int)
    | Stamped(token: TokenId, user: UserId, family: SessionId, exp: int)
    | Renewed(token: TokenId, user: UserId, family: SessionId, exp: int, next: TokenId)
    // ending a resolved session: the family first, then the row
    | Ending(family: SessionId)
    | EndingRow(family: SessionId)
    // the owner ending one session by id, in the same order
    | Owned(user: UserId, sid: SessionId)
    | OwnedRow(user: UserId, sid: SessionId)
    // bulk revocation: rows are down, these families still to go
    | Sweeping(user: UserId, families: set<SessionId>)

  datatype Access = Access(sid: SessionId, exp: int)

  /** `logins` remembers each session's deadline as its login set it; the other
      histories are the identifiers handed out and the access tokens minted. */
  datatype State = State(
    db: Db, now: int, procs: map<Pid, Proc>, pids: set<Pid>, ids: set<TokenId>,
    logins: map<SessionId, int>, minted: set<Access>)

  datatype Action =
    | Tick(now: int)
    | LoginMint(p: Pid, user: UserId, sid: SessionId, refresh: TokenId)
    | LoginRecord(p: Pid)
    | LoginStart(p: Pid)
    | Present(p: Pid, token: TokenId)
    | Lookup(p: Pid)
    | Stamp(p: Pid, written: bool)
    | Renew(p: Pid, next: TokenId)
    | Spend(p: Pid)
    | Logout(p: Pid, token: TokenId)
    | EndFamily(p: Pid, written: bool)
    | EndRow(p: Pid)
    | Revoke(p: Pid, user: UserId, sid: SessionId)
    | RevokeTokens(p: Pid)
    | RevokeOwn(p: Pid)
    | BulkRows(p: Pid, user: UserId, spared: Option<SessionId>)
    | BulkTokens(p: Pid, family: SessionId, written: bool)
    | BulkDone(p: Pid)
    | Abandon(p: Pid)

  function Start(): State {
    State(Db(map[], map[]), 0, map[], {}, {}, map[], {})
  }

  function Begin(s: State, p: Pid, proc: Proc): Option<State> {
    if p in s.pids then None else Some(s.(procs := s.procs[p := proc], pids := s.pids + {p}))
  }

  function Become(s: State, p: Pid, proc: Proc): State {
    s.(procs := s.procs[p := proc])
  }

  function Finish(s: State, p: Pid): State {
    s.(procs := s.procs - {p})
  }

  /** The expiry of an access token minted now for a session ending at `exp`. */
  function AccessExpiry(now: int, exp: int): int {
    WholeSeconds(if exp < now + ACCESS_TTL then exp else now + ACCESS_TTL)
  }

  function DoLoginMint(s: State, p: Pid, user: UserId, sid: SessionId, refresh: TokenId): Option<State> {
    if sid in s.logins || refresh in s.ids then None
    else
      var deadline := s.now + REFRESH_TTL;
      Begin(s.(ids := s.ids + {refresh}, logins := s.logins[sid := deadline],
               minted := s.minted + {Access(sid, WholeSeconds(s.now + ACCESS_TTL))}),
            p, Minted(user, sid, deadline, refresh))
  }

  /** The session lookup: a spent token ends the session it belongs to. */
  function DoLookup(s: State, p: Pid, token: TokenId): State {
    if token !in s.db.tokens then Finish(s, p)
    else
      var row := s.db.tokens[token];
      if row.revoked then Become(s, p, Ending(row.family))
      else Become(s, p, Resolved(token, row.user, row.family, row.claimExp))
  }

  /** Both tokens are minted, or neither once the deadline has passed. */
  function DoRenew(s: State, p: Pid, next: TokenId): Option<State>
    requires p in s.procs && s.procs[p].Stamped?
  {
    var proc := s.procs[p];
    if next in s.ids || proc.exp <= s.now then None
    else
      Some(Become(s.(ids := s.ids + {next}, minted := s.minted + {Access(proc.family, AccessExpiry(s.now, proc.exp))}),
                  p, Renewed(proc.token, proc.user, proc.family, proc.exp, next)))
  }

  /** The rotation transaction: whoever finds the token spent ends the session. */
  function DoSpend(s: State, p: Pid): State
    requires p in s.procs && s.procs[p].Renewed?
  {
    var proc := s.procs[p];
    match Rotate(s.db, proc.token, proc.next, proc.user, proc.family, proc.exp)
    case Some(db) => Finish(s.(db := db), p)
    case None => Become(s, p, Ending(proc.family))
  }

  /** The next statement of a request already under way. */
  function Continue(s: State, a: Action, proc: Proc): Option<State>
    requires !a.Tick? && a.p in s.procs && s.procs[a.p] == proc
  {
    match (a, proc)
    case (LoginRecord(p), Minted(user, sid, deadline, refresh)) =>
      Some(Become(s.(db := RecordSession(s.db, sid, user, deadline, s.now)), p, Recorded(user, sid, deadline, refresh)))
    case (LoginStart(p), Recorded(user, sid, deadline, refresh)) =>
      Some(Finish(s.(db := StartFamily(s.db, refresh, sid, user, deadline, WholeSeconds(deadline))), p))
    case (Lookup(p), Parsed(token)) => Some(DoLookup(s, p, token))
    case (Stamp(p, written), Resolved(token, user, family, exp)) =>
      Some(Become(if written then s.(db := Touch(s.db, family, s.now)) else s, p, Stamped(token, user, family, exp)))
    case (Renew(p, next), Stamped(_, _, _, _)) => DoRenew(s, p, next)
    case (Spend(p), Renewed(_, _, _, _, _)) => Some(DoSpend(s, p))
    case (EndFamily(p, written), Ending(family)) =>
      Some(Become(if written then s.(db := RevokeFamily(s.db, family)) else s, p, EndingRow(family)))
    case (EndRow(p), EndingRow(family)) => Some(Finish(s.(db := RevokeRow(s.db, family)), p))
    case (RevokeTokens(p), Owned(user, sid)) => Some(Become(s.(db := RevokeFamily(s.db, sid)), p, OwnedRow(user, sid)))
    case (RevokeOwn(p), OwnedRow(user, sid)) => Some(Finish(s.(db := RevokeOwnRow(s.db, user, sid)), p))
    case (BulkTokens(p, family, written), Sweeping(user, families)) =>
      if family !in families then None
      else
        Some(Become(if written then s.(db := RevokeFamily(s.db, family))
            else s, p, Sweeping(user, families - {family})))
    case (BulkDone(p), Sweeping(_, families)) => if families == {} then Some(Finish(s, p)) else None
    case (Abandon(p), _) => Some(Finish(s, p))
    case _ => None
  }

  /** One step, or None when the action does not fit the state. */
  function Step(s: State, a: Action): Option<State> {
    match a
    case Tick(now) => if now < s.now then None else Some(s.(now := now))
    case LoginMint(p, user, sid, refresh) => DoLoginMint(s, p, user, sid, refresh)
    case Present(p, token) =>
      if token in s.db.tokens && s.now < s.db.tokens[token].claimExp then Begin(s, p, Parsed(token)) else None
    case Logout(p, token) =>
      if token in s.db.tokens then Begin(s, p, Ending(s.db.tokens[token].family)) else None
    case Revoke(p, user, sid) =>
      if sid in s.db.sessions && s.db.sessions[sid].user == user then Begin(s, p, Owned(user, sid)) else None
    case BulkRows(p, user, spared) =>
      var targets := BulkTargets(s.db, user, s.now, spared);
      Begin(s.(db := RevokeRows(s.db, targets)), p, Sweeping(user, targets))
    case _ => if a.p !in s.procs then None else Continue(s, a, s.procs[a.p])
  }

  /** Where a sequence of actions leads, or None if one of them does not fit. */
  function Run(s: State, acts: seq<Action>): Option<State>
    decreases |acts|
  {
    if acts == [] then Some(s)
    else match Step(s, acts[0])
      case None => None
      case Some(t) => Run(t, acts[1..])
  }

  // ----- what is observed

  ghost predicate Reachable(s: State) {
    exists acts :: Run(Start(), acts) == Some(s)
  }

  ghost predicate HasTokens(db: Db, f: SessionId) {
    exists t :: t in db.tokens && db.tokens[t].family == f
  }

  ghost predicate HasLive(db: Db, f: SessionId) {
    exists t :: Live(db, t) && db.tokens[t].family == f
  }

  /** The family was started and none of its tokens can be spent any more. */
  ghost predicate Dead(db: Db, f: SessionId) {
    HasTokens(db, f) && !HasLive(db, f)
  }

  predicate RowRevoked(db: Db, f: SessionId) {
    f in db.sessions && db.sessions[f].revoked
  }

  /** RequireAuth on a token that names a session. */
  predicate Admits(s: State, token: Access) {
    s.now < token.exp && token.sid in s.db.sessions && !s.db.sessions[token.sid].revoked
  }

  predicate ReplacedBy(db: Db, token: TokenId, next: TokenId) {
    token in db.tokens && db.tokens[token].revoked && db.tokens[token].replacedBy == Some(next)
  }

  /** The family's tokens, oldest first, each replaced by the next; all but the
      last are spent and no token of the family is missing. */
  ghost predicate IsChain(db: Db, f: SessionId, chain: seq<TokenId>) {
    && (forall t :: t in chain <==> t in db.tokens && db.tokens[t].family == f)
    && (forall i, j :: 0 <= i < j < |chain| ==> chain[i] != chain[j])
    && (forall i, j :: 0 <= i < |chain| && j == i + 1 && j < |chain| ==>
          ReplacedBy(db, chain[i], chain[j]))
    && (chain != [] ==> db.tokens[chain[|chain| - 1]].replacedBy == None)
  }
}
