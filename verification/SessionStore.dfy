/** The session tables and the statements the auth handlers run on them, each
    one atomic. */
module SessionStore {
  import opened Options
  import opened Ordering

  type TokenId = int
  type SessionId = int
  type UserId = int

  /** A row of refresh_tokens; `claimExp` is the expiry the token itself carries. */
  datatype Token = Token(user: UserId, family: SessionId, expiresAt: int, claimExp: int, revoked: bool,
                         replacedBy: Option<TokenId>)

  /** A row of sessions; its id is the family's id. */
  datatype Session = Session(user: UserId, expiresAt: int, lastSeen: int, revoked: bool)

  datatype Db = Db(tokens: map<TokenId, Token>, sessions: map<SessionId, Session>)

  predicate Live(db: Db, t: TokenId) {
    t in db.tokens && !db.tokens[t].revoked
  }

  function SpentIf(row: Token, spent: bool): Token {
    if spent then row.(revoked := true) else row
  }

  function EndedIf(row: Session, ended: bool): Session {
    if ended then row.(revoked := true) else row
  }

  // ----- the statements as functions

  /** UPDATE refresh_tokens SET revoked_at ... WHERE family_id = f AND revoked_at IS NULL */
  function RevokeFamily(db: Db, f: SessionId): Db {
    db.(tokens := map t | t in db.tokens ::
          if db.tokens[t].family == f then db.tokens[t].(revoked := true) else db.tokens[t])
  }

  /** UPDATE sessions SET revoked_at ... WHERE id = s AND revoked_at IS NULL */
  function RevokeRow(db: Db, s: SessionId): Db {
    if s in db.sessions then db.(sessions := db.sessions[s := db.sessions[s].(revoked := true)]) else db
  }

  /** The same, scoped to its owner. */
  function RevokeOwnRow(db: Db, user: UserId, s: SessionId): Db {
    if s in db.sessions && db.sessions[s].user == user then RevokeRow(db, s) else db
  }

  function RecordSession(db: Db, s: SessionId, user: UserId, deadline: int, now: int): Db {
    db.(sessions := db.sessions[s := Session(user, deadline, now, false)])
  }

  function StartFamily(db: Db, t: TokenId, s: SessionId, user: UserId, deadline: int, claimExp: int): Db {
    db.(tokens := db.tokens[t := Token(user, s, deadline, claimExp, false, None)])
  }

  function Touch(db: Db, s: SessionId, now: int): Db {
    if s in db.sessions then db.(sessions := db.sessions[s := db.sessions[s].(lastSeen := now)]) else db
  }

  /** Spends `t` and stores its successor, or finds it already spent. */
  function Rotate(db: Db, t: TokenId, next: TokenId, user: UserId, f: SessionId, expiresAt: int): Option<Db> {
    if !Live(db, t) then None
    else Some(db.(tokens := db.tokens[t := db.tokens[t].(revoked := true, replacedBy := Some(next))]
                              [next := Token(user, f, expiresAt, expiresAt, false, None)]))
  }

  /** The live sessions a bulk revocation ends. */
  function BulkTargets(db: Db, user: UserId, now: int, spared: Option<SessionId>): set<SessionId> {
    set s | s in db.sessions && db.sessions[s].user == user && !db.sessions[s].revoked
            && db.sessions[s].expiresAt > now && spared != Some(s)
  }

  function RevokeRows(db: Db, targets: set<SessionId>): Db {
    db.(sessions := map s | s in db.sessions ::
          if s in targets then db.sessions[s].(revoked := true) else db.sessions[s])
  }

  // ----- the statements as the program issues them

  class Store {
    var tokens: map<TokenId, Token>
    var sessions: map<SessionId, Session>

    function Value(): Db
      reads this
    {
      Db(tokens, sessions)
    }

    constructor ()
      ensures Value() == Db(map[], map[])
    {
      tokens, sessions := map[], map[];
    }

    method InsertSession(s: SessionId, user: UserId, deadline: int, now: int)
      requires s !in sessions
      modifies this
      ensures Value() == RecordSession(old(Value()), s, user, deadline, now)
      ensures sessions == old(sessions)[s := Session(user, deadline, now, false)] && tokens == old(tokens)
    {
      sessions := sessions[s := Session(user, deadline, now, false)];
    }

    method InsertFirstToken(t: TokenId, s: SessionId, user: UserId, deadline: int, claimExp: int)
      requires t !in tokens
      modifies this
      ensures Value() == StartFamily(old(Value()), t, s, user, deadline, claimExp)
      ensures tokens == old(tokens)[t := Token(user, s, deadline, claimExp, false, None)] && sessions == old(sessions)
    {
      tokens := tokens[t := Token(user, s, deadline, claimExp, false, None)];
    }

    /** One transaction: spend, insert, point the spent row at its successor. */
    method RotateToken(t: TokenId, next: TokenId, user: UserId, f: SessionId, expiresAt: int) returns (ok: bool)
      requires next !in tokens && t != next
      modifies this
      ensures ok <==> Rotate(old(Value()), t, next, user, f, expiresAt).Some?
      ensures Value() == if ok then Rotate(old(Value()), t, next, user, f, expiresAt).value else old(Value())
      ensures ok <==> t in old(tokens) && !old(tokens)[t].revoked
      ensures sessions == old(sessions) && (!ok ==> tokens == old(tokens))
      ensures ok ==>
                tokens.Keys == old(tokens).Keys + {next}
                    && tokens[next] == Token(user, f, expiresAt, expiresAt, false, None)
      ensures ok ==> tokens[t] == old(tokens)[t].(revoked := true, replacedBy := Some(next))
      ensures ok ==> forall k :: k in old(tokens) && k != t ==> tokens[k] == old(tokens)[k]
    {
      if t !in tokens || tokens[t].revoked {
        return false;
      }
      tokens := tokens[t := tokens[t].(revoked := true)];
      tokens := tokens[next := Token(user, f, expiresAt, expiresAt, false, None)];
      tokens := tokens[t := tokens[t].(replacedBy := Some(next))];
      ok := true;
    }

    method RevokeFamilyRows(f: SessionId)
      modifies this
      ensures Value() == RevokeFamily(old(Value()), f)
      ensures sessions == old(sessions) && tokens.Keys == old(tokens).Keys
      ensures forall t :: t in tokens ==> tokens[t] == SpentIf(old(tokens)[t], old(tokens)[t].family == f)
    {
      tokens := map t | t in tokens ::
        if tokens[t].family == f && !tokens[t].revoked then tokens[t].(revoked := true) else tokens[t];
    }

    method RevokeSessionRow(s: SessionId)
      modifies this
      ensures Value() == RevokeRow(old(Value()), s)
      ensures tokens == old(tokens) && sessions.Keys == old(sessions).Keys
      ensures forall k :: k in sessions ==> sessions[k] == EndedIf(old(sessions)[k], k == s)
    {
      if s in sessions && !sessions[s].revoked {
        sessions := sessions[s := sessions[s].(revoked := true)];
      }
    }

    /** Ends one session: both halves run. */
    method EndSession(f: SessionId)
      modifies this
      ensures Value() == RevokeRow(RevokeFamily(old(Value()), f), f)
      ensures tokens.Keys == old(tokens).Keys && sessions.Keys == old(sessions).Keys
      ensures forall t :: t in tokens ==> tokens[t] == SpentIf(old(tokens)[t], old(tokens)[t].family == f)
      ensures forall k :: k in sessions ==> sessions[k] == EndedIf(old(sessions)[k], k == f)
    {
      RevokeFamilyRows(f);
      RevokeSessionRow(f);
    }

    /** Ends every other live session of a user and then each one's family: the
        rows that change are exactly the user's own that were neither revoked
        nor expired nor spared, and the tokens that change are theirs. */
    method RevokeSessions(user: UserId, now: int, spared: Option<SessionId>) returns (families: seq<SessionId>)
      modifies this
      ensures sessions.Keys == old(sessions).Keys
      ensures forall s :: s in sessions ==>
                (sessions[s] != old(sessions)[s] <==>
                  && old(sessions)[s].user == user && !old(sessions)[s].revoked
                  && old(sessions)[s].expiresAt > now && spared != Some(s))
      ensures forall s :: s in sessions ==> sessions[s] == EndedIf(old(sessions)[s], sessions[s] != old(sessions)[s])
      ensures forall s :: s in families <==> s in sessions && sessions[s] != old(sessions)[s]
      ensures forall t :: t in old(tokens) ==>
                t in tokens && tokens[t] == SpentIf(old(tokens)[t], old(tokens)[t].family in families)
      ensures forall s :: s in families <==> s in BulkTargets(old(Value()), user, now, spared)
      ensures sessions == RevokeRows(old(Value()), BulkTargets(old(Value()), user, now, spared)).sessions
      ensures tokens.Keys == old(tokens).Keys
      ensures forall t :: t in tokens ==>
                tokens[t] == SpentIf(old(tokens)[t],
                    old(tokens)[t].family in BulkTargets(old(Value()), user, now, spared))
    {
      var targets := BulkTargets(Value(), user, now, spared);
      sessions := map s | s in sessions :: if s in targets then sessions[s].(revoked := true) else sessions[s];
      families := Listing(targets);
      ghost var done: set<SessionId> := {};
      for i := 0 to |families|
        invariant sessions == RevokeRows(old(Value()), targets).sessions
        invariant forall s :: s in done <==> exists k :: 0 <= k < i && families[k] == s
        invariant tokens.Keys == old(tokens).Keys
        invariant forall t :: t in tokens ==> tokens[t] == SpentIf(old(tokens)[t], old(tokens)[t].family in done)
      {
        RevokeFamilyRows(families[i]);
        done := done + {families[i]};
      }
      assert forall s :: s in done <==> s in families;
    }
  }
}
