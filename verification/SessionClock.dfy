/** What the protocol reads off the clock: how long what it mints lasts, and when
    a session was last seen. */
module SessionClock {
  import opened Options
  import opened SessionStore
  import opened SessionProtocol
  import opened SessionInvariants

  // ----- how long tokens last

  /** An access token ends on a whole second, a quarter of an hour after it was
      minted or at a given deadline if that comes first, less the fraction of the
      second. */
  predicate EndsBy(exp: int, now: int, deadline: int) {
    var quarter := now + 900_000_000_000;
    && exp % 1_000_000_000 == 0
    && exp <= quarter && exp <= deadline
    && (quarter - exp < 1_000_000_000 || deadline - exp < 1_000_000_000)
  }

  /** Only a login and a refresh mint: a login for a session that is to last
      thirty days, and a refresh for the session of the token it presents, within
      that token's life. */
  lemma MintedTokensAreShort(s: State, a: Action, t: State, token: Access)
    requires Step(s, a) == Some(t) && token in t.minted && token !in s.minted
    ensures a.LoginMint? || a.Renew?
    ensures a.LoginMint? ==>
              && token.sid == a.sid && a.sid in t.logins && t.logins[a.sid] == s.now + 2_592_000_000_000_000
              && EndsBy(token.exp, s.now, t.logins[a.sid])
    ensures a.Renew? ==>
              && a.p in s.procs && s.procs[a.p].Stamped? && token.sid == s.procs[a.p].family
              && EndsBy(token.exp, s.now, s.procs[a.p].exp)
  {
  }

  // ----- when a session was last seen

  predicate Stamps(s: State, a: Action, f: SessionId) {
    a.Stamp? && a.written && a.p in s.procs && s.procs[a.p].Resolved? && s.procs[a.p].family == f
  }

  /** A session's row is stamped with the present by a refresh of that session, and
      by nothing else. */
  lemma OnlyARefreshStamps(s: State, a: Action, t: State, f: SessionId)
    requires Fresh(s) && Step(s, a) == Some(t) && f in s.db.sessions
    ensures f in t.db.sessions
    ensures t.db.sessions[f].lastSeen == if Stamps(s, a, f) then s.now else s.db.sessions[f].lastSeen
  {
    RowChanges(s, a, t);
  }

  ghost predicate SeenByNow(s: State) {
    forall f :: f in s.db.sessions ==> s.db.sessions[f].lastSeen <= s.now
  }

  lemma StepIsSeenByNow(s: State, a: Action, t: State)
    requires Fresh(s) && SeenByNow(s) && Step(s, a) == Some(t)
    ensures SeenByNow(t)
  {
    forall f | f in t.db.sessions
      ensures t.db.sessions[f].lastSeen <= t.now
    {
      if f in s.db.sessions {
        OnlyARefreshStamps(s, a, t, f);
      }
    }
  }

  lemma {:induction false} RunIsSeenByNow(s: State, acts: seq<Action>, t: State)
    requires Inv(s) && SeenByNow(s) && Run(s, acts) == Some(t)
    ensures SeenByNow(t)
    decreases |acts|
  {
    if acts != [] {
      var next := Step(s, acts[0]).value;
      StepKeeps(s, acts[0], next);
      StepIsSeenByNow(s, acts[0], next);
      RunIsSeenByNow(next, acts[1..], t);
    }
  }

  lemma {:induction false} NeverSeenEarlier(s: State, acts: seq<Action>, t: State, f: SessionId)
    requires Inv(s) && SeenByNow(s) && Run(s, acts) == Some(t) && f in s.db.sessions
    ensures f in t.db.sessions && s.db.sessions[f].lastSeen <= t.db.sessions[f].lastSeen
    decreases |acts|
  {
    if acts != [] {
      var next := Step(s, acts[0]).value;
      StepKeeps(s, acts[0], next);
      StepIsSeenByNow(s, acts[0], next);
      OnlyARefreshStamps(s, acts[0], next, f);
      NeverSeenEarlier(next, acts[1..], t, f);
    }
  }

  lemma ReachableFromStart()
    ensures Inv(Start()) && SeenByNow(Start())
  {
    assert Run(Start(), []) == Some(Start());
    ReachableIsInvariant(Start());
  }

  /** Over any run a session is seen ever later, and never after the present. */
  lemma LastSeenFollowsTheClock(s: State, acts: seq<Action>, t: State, f: SessionId)
    requires Reachable(s) && Run(s, acts) == Some(t) && f in s.db.sessions
    ensures f in t.db.sessions && s.db.sessions[f].lastSeen <= t.db.sessions[f].lastSeen <= t.now
  {
    ReachableIsInvariant(s);
    var before :| Run(Start(), before) == Some(s);
    ReachableFromStart();
    RunIsSeenByNow(Start(), before, s);
    RunIsSeenByNow(s, acts, t);
    NeverSeenEarlier(s, acts, t, f);
  }
}
