/** What every step of the session protocol keeps. */
module SessionInvariants {
  import opened Options
  import opened SessionStore
  import opened SessionProtocol

  // ----- how a step may change the tables

  /** No row appears or disappears and no spent token comes back. */
  ghost predicate TokensOnlySpent(was: Db, db: Db) {
    && was.tokens.Keys == db.tokens.Keys
    && forall t :: t in db.tokens ==>
         db.tokens[t].(revoked := was.tokens[t].revoked) == was.tokens[t]
             && (was.tokens[t].revoked ==> db.tokens[t].revoked)
  }

  ghost predicate RowsOnlyRevoked(was: Db, db: Db) {
    && was.sessions.Keys == db.sessions.Keys
    && forall f :: f in db.sessions ==>
         && db.sessions[f].user == was.sessions[f].user && db.sessions[f].expiresAt == was.sessions[f].expiresAt
         && (was.sessions[f].revoked ==> db.sessions[f].revoked)
  }

  ghost predicate StartsFamily(s: State, a: Action) {
    a.LoginStart? && a.p in s.procs && s.procs[a.p].Recorded?
  }

  ghost predicate Rotates(s: State, a: Action) {
    a.Spend? && a.p in s.procs && s.procs[a.p].Renewed? && Live(s.db, s.procs[a.p].token)
  }

  ghost predicate RecordsRow(s: State, a: Action) {
    a.LoginRecord? && a.p in s.procs && s.procs[a.p].Minted?
  }

  lemma TokenChanges(s: State, a: Action, t: State)
    requires Step(s, a) == Some(t)
    ensures StartsFamily(s, a) || Rotates(s, a) || TokensOnlySpent(s.db, t.db)
  {
  }

  lemma RowChanges(s: State, a: Action, t: State)
    requires Step(s, a) == Some(t)
    ensures RecordsRow(s, a) || RowsOnlyRevoked(s.db, t.db)
  {
  }

  // ----- identifiers

  function Held(proc: Proc): Option<TokenId> {
    match proc
    case Minted(_, _, _, refresh) => Some(refresh)
    case Recorded(_, _, _, refresh) => Some(refresh)
    case Renewed(_, _, _, _, next) => Some(next)
    case _ => None
  }

  function LoggingIn(proc: Proc): Option<SessionId> {
    match proc
    case Minted(_, sid, _, _) => Some(sid)
    case Recorded(_, sid, _, _) => Some(sid)
    case _ => None
  }

  ghost predicate Unshared(procs: map<Pid, Proc>) {
    && (forall p, q :: p in procs && q in procs && p != q && Held(procs[p]).Some? ==> Held(procs[p]) != Held(procs[q]))
    && (forall p, q :: p in procs && q in procs && p != q && LoggingIn(procs[p]).Some? ==>
         LoggingIn(procs[p]) != LoggingIn(procs[q]))
  }

  ghost predicate Fresh(s: State) {
    && (forall t :: t in s.db.tokens ==> t in s.ids)
    && s.procs.Keys <= s.pids
    && Unshared(s.procs)
    && (forall p :: p in s.procs && Held(s.procs[p]).Some? ==> Held(s.procs[p]).value in s.ids - s.db.tokens.Keys)
    && (forall p :: p in s.procs && LoggingIn(s.procs[p]).Some? ==>
         LoggingIn(s.procs[p]).value in s.logins && !HasTokens(s.db, LoggingIn(s.procs[p]).value))
    && (forall p :: p in s.procs && s.procs[p].Minted? ==> s.procs[p].sid !in s.db.sessions)
  }

  // A step moves one process, and what that one newly holds nobody held.
  lemma OneMoves(s: State, a: Action, t: State)
    requires Step(s, a) == Some(t) && !a.Tick?
    ensures forall p :: p in t.procs && p != a.p ==> p in s.procs && t.procs[p] == s.procs[p]
    ensures a.p in t.procs && Held(t.procs[a.p]).Some? ==>
              (a.p in s.procs && Held(s.procs[a.p]) == Held(t.procs[a.p])) || Held(t.procs[a.p]).value !in s.ids
    ensures a.p in t.procs && LoggingIn(t.procs[a.p]).Some? ==>
              (a.p in s.procs && LoggingIn(s.procs[a.p]) == LoggingIn(t.procs[a.p]))
                  || LoggingIn(t.procs[a.p]).value !in s.logins
  {
  }

  lemma FreshUnshared(s: State, a: Action, t: State)
    requires Fresh(s) && Step(s, a) == Some(t)
    ensures Unshared(t.procs)
  {
    if !a.Tick? {
      OneMoves(s, a, t);
    }
  }

  lemma FreshIds(s: State, a: Action, t: State)
    requires Fresh(s) && Step(s, a) == Some(t)
    ensures t.procs.Keys <= t.pids && forall k :: k in t.db.tokens ==> k in t.ids
  {
  }

  ghost predicate IsRow(db: Db, token: TokenId, user: UserId, family: SessionId, exp: int) {
    token in db.tokens && db.tokens[token].user == user && db.tokens[token].family == family
        && db.tokens[token].claimExp == exp
  }

  ghost predicate ProcTied(s: State, proc: Proc) {
    match proc
    case Minted(user, sid, deadline, _) => sid in s.logins && s.logins[sid] == deadline
    case Recorded(user, sid, deadline, _) =>
      sid in s.logins && s.logins[sid] == deadline && sid in s.db.sessions && s.db.sessions[sid].user == user
    case Parsed(token) => token in s.db.tokens
    case Resolved(token, user, family, exp) => IsRow(s.db, token, user, family, exp)
    case Stamped(token, user, family, exp) => IsRow(s.db, token, user, family, exp)
    case Renewed(token, user, family, exp, _) => IsRow(s.db, token, user, family, exp)
    case Ending(family) => HasTokens(s.db, family)
    case EndingRow(family) => HasTokens(s.db, family)
    case Owned(user, sid) => sid in s.db.sessions && s.db.sessions[sid].user == user
    case OwnedRow(user, sid) => sid in s.db.sessions && s.db.sessions[sid].user == user
    case Sweeping(user, families) =>
      forall f :: f in families ==> RowRevoked(s.db, f) && s.db.sessions[f].user == user
  }

  /** A token row belongs to a recorded session of its own user and neither the
      row nor the token outlasts the login's deadline. */
  ghost predicate TokenTied(s: State, row: Token) {
    && row.family in s.logins && row.claimExp <= row.expiresAt <= s.logins[row.family]
    && row.family in s.db.sessions && s.db.sessions[row.family].user == row.user
    && (row.replacedBy.Some? ==> row.revoked)
  }

  ghost predicate Tied(s: State) {
    && (forall p :: p in s.procs ==> ProcTied(s, s.procs[p]))
    && (forall t :: t in s.db.tokens ==> TokenTied(s, s.db.tokens[t]))
    && (forall f :: f in s.db.sessions ==> f in s.logins && s.db.sessions[f].expiresAt == s.logins[f])
    && (forall a :: a in s.minted ==> a.sid in s.logins && a.exp <= s.logins[a.sid])
  }

  lemma FreshHeld(s: State, a: Action, t: State)
    requires Fresh(s) && Tied(s) && Step(s, a) == Some(t)
    ensures forall p :: p in t.procs && Held(t.procs[p]).Some? ==> Held(t.procs[p]).value in t.ids - t.db.tokens.Keys
  {
  }

  // Tokens of a family without any come only from its own login.
  lemma FirstTokens(s: State, a: Action, t: State, f: SessionId)
    requires Tied(s) && Step(s, a) == Some(t) && !HasTokens(s.db, f) && HasTokens(t.db, f)
    ensures StartsFamily(s, a) && s.procs[a.p].sid == f
  {
    TokenChanges(s, a, t);
    var k :| k in t.db.tokens && t.db.tokens[k].family == f;
    assert k !in s.db.tokens || s.db.tokens[k].family != f;
    assert !a.Tick? && a.p in s.procs ==> ProcTied(s, s.procs[a.p]);
  }

  lemma MovedLogin(s: State, a: Action, t: State)
    requires Fresh(s) && Tied(s) && Step(s, a) == Some(t) && !a.Tick? && a.p in t.procs && LoggingIn(t.procs[a.p]).Some?
    ensures var sid := LoggingIn(t.procs[a.p]).value;
            && sid in t.logins && !HasTokens(t.db, sid) && (t.procs[a.p].Minted? ==> sid !in t.db.sessions)
  {
    var sid := LoggingIn(t.procs[a.p]).value;
    assert a.LoginMint? || a.LoginRecord?;
    assert t.db.tokens == s.db.tokens;
    forall k | k in s.db.tokens && sid !in s.logins
      ensures s.db.tokens[k].family != sid
    {
      assert TokenTied(s, s.db.tokens[k]);
    }
  }

  lemma LoginsStay(s: State, a: Action, t: State)
    requires Step(s, a) == Some(t)
    ensures s.logins.Keys <= t.logins.Keys && forall f :: f in s.logins ==> t.logins[f] == s.logins[f]
  {
  }

  lemma OtherLogin(s: State, a: Action, t: State, p: Pid)
    requires Fresh(s) && Tied(s) && Step(s, a) == Some(t) && p in t.procs && (a.Tick? || p != a.p)
    requires LoggingIn(t.procs[p]).Some?
    ensures LoggingIn(t.procs[p]).value in t.logins && !HasTokens(t.db, LoggingIn(t.procs[p]).value)
    ensures t.procs[p].Minted? ==> t.procs[p].sid !in t.db.sessions
  {
    if !a.Tick? {
      OneMoves(s, a, t);
    }
    var sid := LoggingIn(t.procs[p]).value;
    assert p in s.procs && s.procs[p] == t.procs[p];
    LoginsStay(s, a, t);
    RowChanges(s, a, t);
    if HasTokens(t.db, sid) {
      FirstTokens(s, a, t, sid);
    }
  }

  lemma FreshLogins(s: State, a: Action, t: State)
    requires Fresh(s) && Tied(s) && Step(s, a) == Some(t)
    ensures forall p :: p in t.procs && LoggingIn(t.procs[p]).Some? ==>
              LoggingIn(t.procs[p]).value in t.logins && !HasTokens(t.db, LoggingIn(t.procs[p]).value)
    ensures forall p :: p in t.procs && t.procs[p].Minted? ==> t.procs[p].sid !in t.db.sessions
  {
    forall p | p in t.procs && LoggingIn(t.procs[p]).Some?
      ensures LoggingIn(t.procs[p]).value in t.logins && !HasTokens(t.db, LoggingIn(t.procs[p]).value)
      ensures t.procs[p].Minted? ==> t.procs[p].sid !in t.db.sessions
    {
      if !a.Tick? && p == a.p {
        MovedLogin(s, a, t);
      } else {
        OtherLogin(s, a, t, p);
      }
    }
  }

  // ----- what the processes and rows are tied to

  ghost predicate Chained(s: State, f: SessionId) {
    exists chain :: IsChain(s.db, f, chain)
  }

  ghost predicate Inv(s: State) {
    Fresh(s) && Tied(s) && forall f :: f in s.logins ==> Chained(s, f)
  }

  /** Rows are never lost, never change hands and never come back to life. */
  ghost predicate Grows(s: State, t: State) {
    && s.db.tokens.Keys <= t.db.tokens.Keys && s.db.sessions.Keys <= t.db.sessions.Keys
    && s.logins.Keys <= t.logins.Keys
    && (forall k :: k in s.db.tokens ==>
          && t.db.tokens[k].user == s.db.tokens[k].user && t.db.tokens[k].family == s.db.tokens[k].family
          && t.db.tokens[k].claimExp == s.db.tokens[k].claimExp && (s.db.tokens[k].revoked ==> t.db.tokens[k].revoked))
    && (forall f :: f in s.db.sessions ==>
          t.db.sessions[f].user == s.db.sessions[f].user && (s.db.sessions[f].revoked ==> t.db.sessions[f].revoked))
    && (forall f :: f in s.logins ==> t.logins[f] == s.logins[f])
    && s.minted <= t.minted && s.now <= t.now && s.pids <= t.pids
  }

  lemma HistoryGrows(s: State, a: Action, t: State)
    requires Step(s, a) == Some(t)
    ensures s.minted <= t.minted && s.now <= t.now && s.pids <= t.pids
  {
  }

  lemma StepGrows(s: State, a: Action, t: State)
    requires Fresh(s) && Step(s, a) == Some(t)
    ensures Grows(s, t)
  {
    TokenChanges(s, a, t);
    RowChanges(s, a, t);
    LoginsStay(s, a, t);
    HistoryGrows(s, a, t);
    if StartsFamily(s, a) || Rotates(s, a) {
      assert Held(s.procs[a.p]).Some?;
    }
  }

  lemma HasTokensGrows(s: State, t: State, f: SessionId)
    requires Grows(s, t) && HasTokens(s.db, f)
    ensures HasTokens(t.db, f)
  {
    var k :| k in s.db.tokens && s.db.tokens[k].family == f;
    assert t.db.tokens[k].family == f;
  }

  lemma StaysTied(s: State, t: State, proc: Proc)
    requires Grows(s, t) && ProcTied(s, proc)
    ensures ProcTied(t, proc)
  {
    match proc
    case Ending(f) => HasTokensGrows(s, t, f);
    case EndingRow(f) => HasTokensGrows(s, t, f);
    case _ =>
  }

  lemma MovedIsTied(s: State, a: Action, t: State)
    requires Fresh(s) && Tied(s) && Step(s, a) == Some(t) && !a.Tick? && a.p in t.procs
    ensures ProcTied(t, t.procs[a.p])
  {
    StepGrows(s, a, t);
    match t.procs[a.p]
    case Ending(f) => if HasTokens(s.db, f) { HasTokensGrows(s, t, f); }
    case EndingRow(f) => HasTokensGrows(s, t, f);
    case _ =>
  }

  lemma TiedProcs(s: State, a: Action, t: State)
    requires Fresh(s) && Tied(s) && Step(s, a) == Some(t)
    ensures forall p :: p in t.procs ==> ProcTied(t, t.procs[p])
  {
    StepGrows(s, a, t);
    if !a.Tick? {
      OneMoves(s, a, t);
    }
    forall p | p in t.procs
      ensures ProcTied(t, t.procs[p])
    {
      if !a.Tick? && p == a.p {
        MovedIsTied(s, a, t);
      } else {
        StaysTied(s, t, s.procs[p]);
      }
    }
  }

  lemma NewTokenTied(s: State, a: Action, t: State)
    requires Fresh(s) && Tied(s) && Step(s, a) == Some(t) && (StartsFamily(s, a) || Rotates(s, a))
    requires ProcTied(s, s.procs[a.p])
    ensures forall k :: k in t.db.tokens ==> TokenTied(t, t.db.tokens[k])
  {
    if Rotates(s, a) {
      assert TokenTied(s, s.db.tokens[s.procs[a.p].token]);
    }
    forall k | k in t.db.tokens
      ensures TokenTied(t, t.db.tokens[k])
    {
      if k in s.db.tokens {
        assert TokenTied(s, s.db.tokens[k]);
      }
    }
  }

  lemma TiedTokens(s: State, a: Action, t: State)
    requires Fresh(s) && Tied(s) && Step(s, a) == Some(t)
    ensures forall k :: k in t.db.tokens ==> TokenTied(t, t.db.tokens[k])
  {
    StepGrows(s, a, t);
    TokenChanges(s, a, t);
    if StartsFamily(s, a) || Rotates(s, a) {
      assert ProcTied(s, s.procs[a.p]);
      NewTokenTied(s, a, t);
    } else {
      forall k | k in t.db.tokens
        ensures TokenTied(t, t.db.tokens[k])
      {
        assert TokenTied(s, s.db.tokens[k]);
      }
    }
  }

  lemma MintedWithin(s: State, a: Action, t: State, token: Access)
    requires Tied(s) && Step(s, a) == Some(t) && token in t.minted && token !in s.minted
    ensures token.sid in t.logins && token.exp <= t.logins[token.sid]
  {
    assert a.LoginMint? || a.Renew?;
    if a.Renew? {
      assert ProcTied(s, s.procs[a.p]);
      assert TokenTied(s, s.db.tokens[s.procs[a.p].token]);
    }
  }

  lemma TiedRows(s: State, a: Action, t: State)
    requires Fresh(s) && Tied(s) && Step(s, a) == Some(t)
    ensures forall f :: f in t.db.sessions ==> f in t.logins && t.db.sessions[f].expiresAt == t.logins[f]
    ensures forall token :: token in t.minted ==> token.sid in t.logins && token.exp <= t.logins[token.sid]
  {
    LoginsStay(s, a, t);
    RowChanges(s, a, t);
    if RecordsRow(s, a) {
      assert ProcTied(s, s.procs[a.p]);
    }
    forall token | token in t.minted
      ensures token.sid in t.logins && token.exp <= t.logins[token.sid]
    {
      if token !in s.minted {
        MintedWithin(s, a, t, token);
      }
    }
  }

  // ----- the chain of each family

  // A family whose rows are at most spent keeps its chain.
  lemma OtherChain(was: Db, db: Db, f: SessionId, chain: seq<TokenId>)
    requires IsChain(was, f, chain)
    requires forall t :: t in db.tokens && db.tokens[t].family == f ==> t in was.tokens
    requires forall t :: t in was.tokens && was.tokens[t].family == f ==>
               t in db.tokens && db.tokens[t].(revoked := was.tokens[t].revoked) == was.tokens[t]
                   && (was.tokens[t].revoked ==> db.tokens[t].revoked)
    requires forall t :: t in db.tokens && t in was.tokens && db.tokens[t].family == f ==> was.tokens[t].family == f
    ensures IsChain(db, f, chain)
  {
    forall i, j | 0 <= i < |chain| && j == i + 1 && j < |chain|
      ensures ReplacedBy(db, chain[i], chain[j])
    {
      assert ReplacedBy(was, chain[i], chain[j]) && chain[i] in chain;
    }
    if chain != [] {
      var last := chain[|chain| - 1];
      assert last in chain && last in was.tokens && was.tokens[last].family == f;
      assert db.tokens[last].replacedBy == was.tokens[last].replacedBy;
    }
  }

  /** Only the last token of a chain can be live, so spending one appends. */
  lemma RotationExtends(db: Db, token: TokenId, next: TokenId, user: UserId, f: SessionId, exp: int,
                        chain: seq<TokenId>)
    requires IsChain(db, f, chain) && Live(db, token) && db.tokens[token].family == f && next !in db.tokens
    ensures chain != [] && chain[|chain| - 1] == token
    ensures IsChain(Rotate(db, token, next, user, f, exp).value, f, chain + [next])
  {
    assert token in chain;
    var at :| 0 <= at < |chain| && chain[at] == token;
    assert at + 1 < |chain| ==> ReplacedBy(db, chain[at], chain[at + 1]);
    var after := Rotate(db, token, next, user, f, exp).value;
    var longer := chain + [next];
    forall t
      ensures t in longer <==> t in after.tokens && after.tokens[t].family == f
    {
      assert t in longer <==> t in chain || t == next;
    }
    forall i, j | 0 <= i < |longer| && j == i + 1 && j < |longer|
      ensures ReplacedBy(after, longer[i], longer[j])
    {
      if j < |chain| {
        assert ReplacedBy(db, chain[i], chain[j]);
      }
    }
  }

  lemma ChainKept(s: State, a: Action, t: State, f: SessionId, chain: seq<TokenId>)
    requires Fresh(s) && Tied(s) && Step(s, a) == Some(t) && IsChain(s.db, f, chain)
    ensures exists after :: IsChain(t.db, f, after)
  {
    TokenChanges(s, a, t);
    if StartsFamily(s, a) {
      var proc := s.procs[a.p];
      if proc.sid == f {
        assert !HasTokens(s.db, f);
        assert IsChain(t.db, f, [proc.refresh]);
      } else {
        OtherChain(s.db, t.db, f, chain);
      }
    } else if Rotates(s, a) {
      var proc := s.procs[a.p];
      if proc.family == f {
        RotationExtends(s.db, proc.token, proc.next, proc.user, f, proc.exp, chain);
        assert IsChain(t.db, f, chain + [proc.next]);
      } else {
        OtherChain(s.db, t.db, f, chain);
      }
    } else {
      OtherChain(s.db, t.db, f, chain);
    }
  }

  lemma NoTokensYet(s: State, a: Action, t: State, f: SessionId)
    requires Tied(s) && Step(s, a) == Some(t) && f in t.logins && f !in s.logins
    ensures forall k :: k in t.db.tokens ==> t.db.tokens[k].family != f
  {
    assert a.LoginMint? && t.db == s.db;
    forall k | k in s.db.tokens
      ensures s.db.tokens[k].family != f
    {
      assert TokenTied(s, s.db.tokens[k]);
    }
  }

  lemma StepKeepsChains(s: State, a: Action, t: State, f: SessionId)
    requires Inv(s) && Step(s, a) == Some(t) && f in t.logins
    ensures Chained(t, f)
  {
    if f in s.logins {
      assert Chained(s, f);
      var chain :| IsChain(s.db, f, chain);
      ChainKept(s, a, t, f, chain);
    } else {
      NoTokensYet(s, a, t, f);
      assert IsChain(t.db, f, []);
    }
  }

  lemma StepKeepsFresh(s: State, a: Action, t: State)
    requires Fresh(s) && Tied(s) && Step(s, a) == Some(t)
    ensures Fresh(t)
  {
    FreshUnshared(s, a, t);
    FreshIds(s, a, t);
    FreshHeld(s, a, t);
    FreshLogins(s, a, t);
  }

  lemma StepKeepsTied(s: State, a: Action, t: State)
    requires Fresh(s) && Tied(s) && Step(s, a) == Some(t)
    ensures Tied(t)
  {
    TiedProcs(s, a, t);
    TiedTokens(s, a, t);
    TiedRows(s, a, t);
  }

  lemma StepKeeps(s: State, a: Action, t: State)
    requires Inv(s) && Step(s, a) == Some(t)
    ensures Inv(t)
  {
    StepKeepsFresh(s, a, t);
    StepKeepsTied(s, a, t);
    forall f | f in t.logins
      ensures Chained(t, f)
    {
      StepKeepsChains(s, a, t, f);
    }
  }

  lemma {:induction false} RunKeeps(s: State, acts: seq<Action>, t: State)
    requires Inv(s) && Run(s, acts) == Some(t)
    ensures Inv(t) && Grows(s, t)
    decreases |acts|
  {
    if acts != [] {
      var mid := Step(s, acts[0]).value;
      StepKeeps(s, acts[0], mid);
      StepGrows(s, acts[0], mid);
      RunKeeps(mid, acts[1..], t);
    }
  }

  /** Every reachable state satisfies the invariant. */
  lemma ReachableIsInvariant(s: State)
    requires Reachable(s)
    ensures Inv(s)
  {
    var acts :| Run(Start(), acts) == Some(s);
    RunKeeps(Start(), acts, s);
  }
}
