/** What each request does when nothing interferes: the runs that the protocol is
    for, from any state it can be in. */
module SessionRequests {
  import opened Options
  import opened SessionStore
  import opened SessionProtocol
  import opened SessionInvariants
  import opened SessionClock

  // A request that has finished has left only what it did to the tables and what
  // it minted.
  ghost predicate Done(s: State, t: State, p: Pid) {
    p !in t.procs && t.now == s.now && forall q :: q in s.procs && q != p ==> q in t.procs && t.procs[q] == s.procs[q]
  }

  lemma NothingYet(s: State, p: Pid, sid: SessionId, token: TokenId)
    requires Reachable(s)
    ensures p !in s.pids ==> p !in s.procs
    ensures sid !in s.logins ==> sid !in s.db.sessions
    ensures token !in s.ids ==> token !in s.db.tokens
  {
    ReachableIsInvariant(s);
  }

  lemma RunOne(s: State, a: Action)
    ensures Run(s, [a]) == Step(s, a)
  {
    assert [a][1..] == [];
  }

  lemma RunMore(s: State, a: Action, rest: seq<Action>)
    requires Step(s, a).Some?
    ensures Run(s, [a] + rest) == Run(Step(s, a).value, rest)
  {
    assert ([a] + rest)[1..] == rest;
  }

  lemma RunThree(s: State, a: Action, b: Action, c: Action, s1: State, s2: State, s3: State)
    requires Step(s, a) == Some(s1) && Step(s1, b) == Some(s2) && Step(s2, c) == Some(s3)
    ensures Run(s, [a, b, c]) == Some(s3)
  {
    RunOne(s2, c);
    RunMore(s1, b, [c]);
    RunMore(s, a, [b] + [c]);
    assert [a, b, c] == [a] + ([b] + [c]);
  }

  /** A login leaves a live session of the user that lasts thirty days, with one
      refresh token, and an access token that is admitted. */
  ghost predicate SignedIn(s: State, t: State, user: UserId, sid: SessionId, refresh: TokenId) {
    && t.db.sessions == s.db.sessions[sid := Session(user, s.now + 2_592_000_000_000_000, s.now, false)]
    && t.db.tokens.Keys == s.db.tokens.Keys + {refresh}
    && (forall k :: k in s.db.tokens ==> t.db.tokens[k] == s.db.tokens[k])
    && Live(t.db, refresh) && t.db.tokens[refresh].user == user && t.db.tokens[refresh].family == sid
    && exists access: Access :: access in t.minted && access.sid == sid && Admits(t, access)
  }

  lemma LoginLeaves(s: State, p: Pid, user: UserId, sid: SessionId, refresh: TokenId, s1: State, s2: State, t: State)
    requires p !in s.pids && p !in s.procs && sid !in s.db.sessions && refresh !in s.db.tokens
    requires Step(s, LoginMint(p, user, sid, refresh)) == Some(s1) && Step(s1, LoginRecord(p)) == Some(s2)
    requires Step(s2, LoginStart(p)) == Some(t)
    ensures Done(s, t, p) && SignedIn(s, t, user, sid, refresh)
    ensures forall access: Access :: access.sid == sid ==> !Admits(s1, access)
  {
    var access := Access(sid, WholeSeconds(s.now + ACCESS_TTL));
    assert access in t.minted && Admits(t, access);
  }

  /** Nothing is admitted for the session until its row is written. */
  lemma LoginSignsIn(s: State, p: Pid, user: UserId, sid: SessionId, refresh: TokenId)
    requires Reachable(s) && p !in s.pids && sid !in s.logins && refresh !in s.ids
    ensures var steps := [LoginMint(p, user, sid, refresh), LoginRecord(p), LoginStart(p)];
            Run(s, steps).Some? && Done(s, Run(s, steps).value, p)
            && SignedIn(s, Run(s, steps).value, user, sid, refresh)
    ensures var minted := Step(s, LoginMint(p, user, sid, refresh));
            minted.Some? && forall access: Access :: access.sid == sid ==> !Admits(minted.value, access)
  {
    NothingYet(s, p, sid, refresh);
    var s1 := Step(s, LoginMint(p, user, sid, refresh)).value;
    var s2 := Step(s1, LoginRecord(p)).value;
    var t := Step(s2, LoginStart(p)).value;
    LoginLeaves(s, p, user, sid, refresh, s1, s2, t);
    RunThree(s, LoginMint(p, user, sid, refresh), LoginRecord(p), LoginStart(p), s1, s2, t);
  }

  // ----- refreshing

  predicate IsAccess(access: Access, sid: SessionId, now: int, deadline: int) {
    access.sid == sid && EndsBy(access.exp, now, deadline)
  }

  /** The token is spent for a live successor of its session and user with its
      deadline, an access token is minted for the session, and the session's row is
      stamped. */
  ghost predicate Renewed(s: State, t: State, token: TokenId, next: TokenId)
    requires token in s.db.tokens
  {
    var was := s.db.tokens[token];
    && t.db.tokens.Keys == s.db.tokens.Keys + {next} && token in t.db.tokens && next in t.db.tokens
    && t.db.tokens[token] == was.(revoked := true, replacedBy := Some(next))
    && t.db.tokens[next] == Token(was.user, was.family, was.claimExp, was.claimExp, false, None)
    && (forall k :: k in s.db.tokens && k != token ==> t.db.tokens[k] == s.db.tokens[k])
    && (exists access :: IsAccess(access, was.family, s.now, was.claimExp) && t.minted == s.minted + {access})
    && was.family in t.db.sessions && t.db.sessions[was.family].lastSeen == s.now
  }

  /** A request about to mint for a live token, its session just stamped. */
  ghost predicate AboutToRenew(s: State, c: State, p: Pid, token: TokenId)
    requires token in s.db.tokens
  {
    var row := s.db.tokens[token];
    && p in c.procs && c.procs[p] == Stamped(token, row.user, row.family, row.claimExp) && c.procs - {p} == s.procs
    && c.db.tokens == s.db.tokens && row.family in c.db.sessions && c.db.sessions[row.family].lastSeen == s.now
    && c.now == s.now && c.minted == s.minted && c.ids == s.ids
  }

  lemma FindsLive(s: State, p: Pid, token: TokenId) returns (a: State, b: State, c: State)
    requires p !in s.pids && p !in s.procs && Live(s.db, token) && s.now < s.db.tokens[token].claimExp
    requires s.db.tokens[token].family in s.db.sessions
    ensures Step(s, Present(p, token)) == Some(a) && Step(a, Lookup(p)) == Some(b) && Step(b, Stamp(p, true)) == Some(c)
    ensures AboutToRenew(s, c, p, token)
  {
    a := Step(s, Present(p, token)).value;
    b := Step(a, Lookup(p)).value;
    c := Step(b, Stamp(p, true)).value;
  }

  lemma SpendsForNext(s: State, c: State, p: Pid, token: TokenId, next: TokenId) returns (d: State, t: State)
    requires Live(s.db, token) && next !in s.ids && next !in s.db.tokens && s.now < s.db.tokens[token].claimExp
    requires AboutToRenew(s, c, p, token)
    ensures Step(c, Renew(p, next)) == Some(d) && Step(d, Spend(p)) == Some(t)
    ensures t.procs == s.procs && t.now == s.now && Renewed(s, t, token, next)
  {
    var row := s.db.tokens[token];
    var access := Access(row.family, AccessExpiry(c.now, row.claimExp));
    assert IsAccess(access, row.family, c.now, row.claimExp);
    d := Step(c, Renew(p, next)).value;
    t := Step(d, Spend(p)).value;
  }

  lemma RunFive(s: State, p: Pid, token: TokenId, next: TokenId, a: State, b: State, c: State, d: State, t: State)
    requires Step(s, Present(p, token)) == Some(a) && Step(a, Lookup(p)) == Some(b)
    requires Step(b, Stamp(p, true)) == Some(c)
    requires Step(c, Renew(p, next)) == Some(d) && Step(d, Spend(p)) == Some(t)
    ensures Run(s, [Present(p, token), Lookup(p), Stamp(p, true), Renew(p, next), Spend(p)]) == Some(t)
  {
    RunThree(b, Stamp(p, true), Renew(p, next), Spend(p), c, d, t);
    RunMore(a, Lookup(p), [Stamp(p, true), Renew(p, next), Spend(p)]);
    RunMore(s, Present(p, token), [Lookup(p)] + [Stamp(p, true), Renew(p, next), Spend(p)]);
    assert [Present(p, token), Lookup(p), Stamp(p, true), Renew(p, next), Spend(p)]
        == [Present(p, token)] + ([Lookup(p)] + [Stamp(p, true), Renew(p, next), Spend(p)]);
  }

  lemma FamilyIsRecorded(s: State, token: TokenId)
    requires Reachable(s) && token in s.db.tokens
    ensures s.db.tokens[token].family in s.db.sessions
  {
    ReachableIsInvariant(s);
    assert TokenTied(s, s.db.tokens[token]);
  }

  /** A refresh by a live token in time renews it. */
  lemma RefreshRenews(s: State, p: Pid, token: TokenId, next: TokenId)
    requires Reachable(s) && p !in s.pids && next !in s.ids
    requires Live(s.db, token) && s.now < s.db.tokens[token].claimExp
    ensures var steps := [Present(p, token), Lookup(p), Stamp(p, true), Renew(p, next), Spend(p)];
            Run(s, steps).Some? && Done(s, Run(s, steps).value, p) && Renewed(s, Run(s, steps).value, token, next)
  {
    NothingYet(s, p, 0, next);
    FamilyIsRecorded(s, token);
    var a, b, c := FindsLive(s, p, token);
    var d, t := SpendsForNext(s, c, p, token, next);
    RunFive(s, p, token, next, a, b, c, d, t);
  }

  // ----- ending

  /** The session's row and every token of its family are revoked, and no other. */
  ghost predicate Ended(was: Db, now: Db, f: SessionId) {
    && now.tokens.Keys == was.tokens.Keys && now.sessions.Keys == was.sessions.Keys
    && (forall k :: k in was.tokens ==> now.tokens[k] == SpentIf(was.tokens[k], was.tokens[k].family == f))
    && (forall g :: g in was.sessions ==> now.sessions[g] == EndedIf(was.sessions[g], g == f))
  }

  lemma EndingRuns(s: State, p: Pid, f: SessionId)
    requires p in s.procs && s.procs[p] == Ending(f)
    ensures var t := Run(s, [EndFamily(p, true), EndRow(p)]);
            t.Some? && Done(s, t.value, p) && Ended(s.db, t.value.db, f)
  {
    var a := Step(s, EndFamily(p, true)).value;
    RunOne(a, EndRow(p));
    RunMore(s, EndFamily(p, true), [EndRow(p)]);
    assert [EndFamily(p, true), EndRow(p)] == [EndFamily(p, true)] + [EndRow(p)];
  }

  /** Presenting a token that has been spent ends its whole session. */
  lemma ReplayEndsTheSession(s: State, p: Pid, token: TokenId)
    requires p !in s.pids && token in s.db.tokens && s.now < s.db.tokens[token].claimExp
    requires s.db.tokens[token].revoked
    ensures var steps := [Present(p, token), Lookup(p), EndFamily(p, true), EndRow(p)];
            && Run(s, steps).Some? && Done(s, Run(s, steps).value, p)
            && Ended(s.db, Run(s, steps).value.db, s.db.tokens[token].family)
  {
    var a := Step(s, Present(p, token)).value;
    var b := Step(a, Lookup(p)).value;
    EndingRuns(b, p, s.db.tokens[token].family);
    RunMore(a, Lookup(p), [EndFamily(p, true), EndRow(p)]);
    RunMore(s, Present(p, token), [Lookup(p)] + [EndFamily(p, true), EndRow(p)]);
    assert [Present(p, token), Lookup(p), EndFamily(p, true), EndRow(p)]
        == [Present(p, token)] + ([Lookup(p)] + [EndFamily(p, true), EndRow(p)]);
  }

  /** A logout ends the session of the token it presents, spent or expired. */
  lemma LogoutEndsTheSession(s: State, p: Pid, token: TokenId)
    requires p !in s.pids && token in s.db.tokens
    ensures var steps := [Logout(p, token), EndFamily(p, true), EndRow(p)];
            && Run(s, steps).Some? && Done(s, Run(s, steps).value, p)
            && Ended(s.db, Run(s, steps).value.db, s.db.tokens[token].family)
  {
    var a := Step(s, Logout(p, token)).value;
    EndingRuns(a, p, s.db.tokens[token].family);
    RunMore(s, Logout(p, token), [EndFamily(p, true), EndRow(p)]);
    assert [Logout(p, token), EndFamily(p, true), EndRow(p)]
        == [Logout(p, token)] + [EndFamily(p, true), EndRow(p)];
  }

  lemma OwnerGoesOn(s: State, p: Pid, user: UserId, sid: SessionId) returns (a: State, b: State, t: State)
    requires p !in s.pids && sid in s.db.sessions && s.db.sessions[sid].user == user
    ensures Step(s, Revoke(p, user, sid)) == Some(a) && Step(a, RevokeTokens(p)) == Some(b)
    ensures Step(b, RevokeOwn(p)) == Some(t) && Done(s, t, p) && Ended(s.db, t.db, sid)
  {
    a := Step(s, Revoke(p, user, sid)).value;
    b := Step(a, RevokeTokens(p)).value;
    t := Step(b, RevokeOwn(p)).value;
  }

  /** So does the owner's request to revoke it; anybody else's is not begun. */
  lemma OwnerEndsTheSession(s: State, p: Pid, user: UserId, sid: SessionId)
    requires p !in s.pids && sid in s.db.sessions
    ensures s.db.sessions[sid].user != user ==> Step(s, Revoke(p, user, sid)) == None
    ensures s.db.sessions[sid].user == user ==>
              var steps := [Revoke(p, user, sid), RevokeTokens(p), RevokeOwn(p)];
              && Run(s, steps).Some? && Done(s, Run(s, steps).value, p) && Ended(s.db, Run(s, steps).value.db, sid)
  {
    if s.db.sessions[sid].user == user {
      var a, b, t := OwnerGoesOn(s, p, user, sid);
      RunThree(s, Revoke(p, user, sid), RevokeTokens(p), RevokeOwn(p), a, b, t);
    }
  }

  /** Any request under way may be cut off where it stands, and leaves the tables
      as they are. */
  lemma AnyRequestMayStop(s: State, p: Pid)
    requires p in s.procs
    ensures Step(s, Abandon(p)).Some?
    ensures var t := Step(s, Abandon(p)).value; Done(s, t, p) && t.db == s.db && t.minted == s.minted
  {
  }
}
