/** What the session protocol promises over every run. */
module SessionTheorems {
  import opened Options
  import opened SessionStore
  import opened SessionProtocol
  import opened SessionInvariants

  // ----- one live token, at the end of the chain

  ghost predicate LiveIsLast(db: Db, f: SessionId, chain: seq<TokenId>) {
    forall t :: Live(db, t) && db.tokens[t].family == f ==> chain != [] && t == chain[|chain| - 1]
  }

  /** A family's tokens form one chain of replacements, and the only token that
      may still be spent is its last. */
  lemma OnlyTheTailIsLive(s: State, f: SessionId)
    requires Reachable(s) && f in s.logins
    ensures exists chain :: IsChain(s.db, f, chain) && LiveIsLast(s.db, f, chain)
  {
    ReachableIsInvariant(s);
    assert Chained(s, f);
    var chain :| IsChain(s.db, f, chain);
    forall t | Live(s.db, t) && s.db.tokens[t].family == f
      ensures chain != [] && t == chain[|chain| - 1]
    {
      assert t in chain;
      var at :| 0 <= at < |chain| && chain[at] == t;
      assert at + 1 < |chain| ==> ReplacedBy(s.db, chain[at], chain[at + 1]);
    }
    assert LiveIsLast(s.db, f, chain);
  }

  /** Once a token has been rotated, no later step rotates it again: whoever
      tries is sent to end the session. */
  lemma RotatesAtMostOnce(s: State, a: Action, t: State, acts: seq<Action>, u: State, b: Action, v: State)
    requires Reachable(s) && Rotates(s, a) && Step(s, a) == Some(t) && Run(t, acts) == Some(u)
    requires b.Spend? && b.p in u.procs && u.procs[b.p].Renewed? && u.procs[b.p].token == s.procs[a.p].token
    requires Step(u, b) == Some(v)
    ensures !Rotates(u, b) && v.procs[b.p] == Ending(s.procs[a.p].family)
  {
    ReachableIsInvariant(s);
    StepKeeps(s, a, t);
    StepGrows(s, a, t);
    RunKeeps(t, acts, u);
    assert t.db.tokens[s.procs[a.p].token].revoked;
    assert u.db.tokens[s.procs[a.p].token].revoked;
    assert ProcTied(u, u.procs[b.p]) && ProcTied(s, s.procs[a.p]);
  }

  // ----- dead families stay dead

  lemma StepKeepsDead(s: State, a: Action, t: State, f: SessionId)
    requires Inv(s) && Step(s, a) == Some(t) && Dead(s.db, f)
    ensures Dead(t.db, f)
  {
    StepGrows(s, a, t);
    HasTokensGrows(s, t, f);
    TokenChanges(s, a, t);
    forall k | k in t.db.tokens && t.db.tokens[k].family == f
      ensures !Live(t.db, k)
    {
      if k in s.db.tokens {
        assert !Live(s.db, k);
      }
    }
  }

  /** A family without a live token never has one again. */
  lemma {:induction false} DeadStaysDead(s: State, acts: seq<Action>, t: State, f: SessionId)
    requires Inv(s) && Run(s, acts) == Some(t) && Dead(s.db, f)
    ensures Dead(t.db, f)
    decreases |acts|
  {
    if acts != [] {
      var mid := Step(s, acts[0]).value;
      StepKeeps(s, acts[0], mid);
      StepKeepsDead(s, acts[0], mid, f);
      DeadStaysDead(mid, acts[1..], t, f);
    }
  }

  // ----- a spent token presented, or a race lost, ends the session

  predicate SpentTokenOf(db: Db, token: TokenId, f: SessionId) {
    token in db.tokens && db.tokens[token].revoked && db.tokens[token].family == f
  }

  /** The request holds a token of `f` that has been spent, whether or not it
      has looked it up yet, or is on its way to end `f`, or has ended it. */
  ghost predicate Convicts(s: State, p: Pid, f: SessionId) {
    if p !in s.procs then p in s.pids && Dead(s.db, f) && RowRevoked(s.db, f)
    else match s.procs[p]
      case Parsed(token) => SpentTokenOf(s.db, token, f)
      case Resolved(token, _, family, _) => SpentTokenOf(s.db, token, f) && family == f
      case Stamped(token, _, family, _) => SpentTokenOf(s.db, token, f) && family == f
      case Renewed(token, _, family, _, _) => SpentTokenOf(s.db, token, f) && family == f
      case Ending(family) => family == f
      case EndingRow(family) => family == f && Dead(s.db, f)
      case _ => false
  }

  /** The request is not cut off, by a crash or by a deadline that passed before
      it could mint, and its family statement does not fail. */
  predicate Completes(p: Pid, a: Action) {
    a != Abandon(p) && a != EndFamily(p, false)
  }

  // The one way each of these requests can go on.
  lemma EnderSteps(s: State, a: Action, t: State)
    requires Step(s, a) == Some(t) && !a.Tick? && a.p in s.procs && a.p in s.pids && s.procs[a.p].EndingRow?
    requires !a.Abandon?
    ensures a.EndRow? && t == Finish(s.(db := RevokeRow(s.db, s.procs[a.p].family)), a.p)
  {
  }

  lemma OwnerSteps(s: State, a: Action, t: State)
    requires Step(s, a) == Some(t) && !a.Tick? && a.p in s.procs && a.p in s.pids && s.procs[a.p].OwnedRow?
    requires !a.Abandon?
    ensures a.RevokeOwn? && t == Finish(s.(db := RevokeOwnRow(s.db, s.procs[a.p].user, s.procs[a.p].sid)), a.p)
  {
  }

  /** A statement failing, or a request dying, between the two halves. */
  predicate Fault(s: State, a: Action) {
    || (a.EndFamily? && !a.written)
    || (a.BulkTokens? && !a.written)
    || (a.Abandon? && a.p in s.procs && (s.procs[a.p].EndingRow? || s.procs[a.p].OwnedRow? || s.procs[a.p].Sweeping?))
  }

  lemma SweeperSteps(s: State, a: Action, t: State)
    requires Step(s, a) == Some(t) && !a.Tick? && a.p in s.procs && a.p in s.pids && s.procs[a.p].Sweeping?
    requires !Fault(s, a)
    ensures var families := s.procs[a.p].families;
            || (a.BulkTokens? && t == Become(s.(db := RevokeFamily(s.db, a.family)), a.p,
                 Sweeping(s.procs[a.p].user, families - {a.family})))
            || (a.BulkDone? && families == {})
  {
  }

  lemma ConvictSteps(s: State, a: Action, t: State)
    requires Step(s, a) == Some(t) && !a.Tick? && a.p in s.procs && a.p in s.pids && Completes(a.p, a)
    ensures s.procs[a.p].Parsed? ==> t == DoLookup(s, a.p, s.procs[a.p].token)
    ensures s.procs[a.p].Resolved? ==>
              var Resolved(token, user, family, exp) := s.procs[a.p];
              t.db.tokens == s.db.tokens && a.p in t.procs && t.procs[a.p] == Stamped(token, user, family, exp)
    ensures s.procs[a.p].Stamped? ==>
              var Stamped(token, user, family, exp) := s.procs[a.p];
              && t.db == s.db && a.p in t.procs && t.procs[a.p].Renewed?
              && t.procs[a.p].token == token && t.procs[a.p].family == family
    ensures s.procs[a.p].Renewed? ==> t == DoSpend(s, a.p)
    ensures s.procs[a.p].Ending? ==>
              t == Become(s.(db := RevokeFamily(s.db, s.procs[a.p].family)), a.p, EndingRow(s.procs[a.p].family))
  {
  }

  lemma RevokedFamilyIsDead(db: Db, f: SessionId)
    requires HasTokens(db, f)
    ensures Dead(RevokeFamily(db, f), f)
  {
    var k :| k in db.tokens && db.tokens[k].family == f;
    assert RevokeFamily(db, f).tokens[k].family == f;
  }

  lemma SameTokensSameDeath(was: Db, db: Db, f: SessionId)
    requires Dead(was, f) && db.tokens == was.tokens
    ensures Dead(db, f)
  {
    var k :| k in was.tokens && was.tokens[k].family == f;
    assert k in db.tokens && db.tokens[k].family == f;
  }

  // A request number is used once.
  lemma PidsAreSpent(s: State, a: Action, t: State)
    requires !a.Tick? && a.p in s.pids && a.p !in s.procs
    ensures Step(s, a) == None
  {
  }

  lemma FamilyHasRow(s: State, f: SessionId)
    requires Tied(s) && HasTokens(s.db, f)
    ensures f in s.db.sessions
  {
    var k :| k in s.db.tokens && s.db.tokens[k].family == f;
    assert TokenTied(s, s.db.tokens[k]);
  }

  lemma OwnStepConvicts(s: State, a: Action, t: State, p: Pid, f: SessionId)
    requires Inv(s) && Step(s, a) == Some(t) && Convicts(s, p, f) && Completes(p, a)
    requires !a.Tick? && a.p == p
    ensures Convicts(t, p, f)
  {
    if p !in s.procs {
      PidsAreSpent(s, a, t);
    } else {
      ConvictSteps(s, a, t);
      assert ProcTied(s, s.procs[p]);
      match s.procs[p] {
        case EndingRow(_) =>
          EnderSteps(s, a, t);
          FamilyHasRow(s, f);
          SameTokensSameDeath(s.db, t.db, f);
        case Ending(_) =>
          RevokedFamilyIsDead(s.db, f);
        case _ =>
      }
    }
  }

  lemma OthersStay(s: State, a: Action, t: State)
    requires Step(s, a) == Some(t) && !a.Tick?
    ensures forall p :: p in s.procs && p != a.p ==> p in t.procs
  {
  }

  lemma OtherStepConvicts(s: State, a: Action, t: State, p: Pid, f: SessionId)
    requires Inv(s) && Step(s, a) == Some(t) && Convicts(s, p, f)
    requires a.Tick? || a.p != p
    ensures Convicts(t, p, f)
  {
    StepGrows(s, a, t);
    if Dead(s.db, f) {
      StepKeepsDead(s, a, t, f);
    }
    if !a.Tick? {
      OneMoves(s, a, t);
      OthersStay(s, a, t);
    }
  }

  /** A request that holds a spent token, lost the race to spend it, or is a
      logout leaves the family dead, the row revoked and every access token of
      the session refused, whatever else runs beside it. */
  lemma {:induction false} ConvictionEndsTheSession(s: State, acts: seq<Action>, t: State, p: Pid, f: SessionId)
    requires Inv(s) && Run(s, acts) == Some(t) && Convicts(s, p, f)
    requires forall a :: a in acts ==> Completes(p, a)
    ensures Convicts(t, p, f)
    ensures p !in t.procs ==> Dead(t.db, f) && RowRevoked(t.db, f)
    ensures p !in t.procs ==> forall token: Access :: token.sid == f ==> !Admits(t, token)
    decreases |acts|
  {
    if acts != [] {
      var mid := Step(s, acts[0]).value;
      StepKeeps(s, acts[0], mid);
      if acts[0].Tick? || acts[0].p != p {
        OtherStepConvicts(s, acts[0], mid, p, f);
      } else {
        OwnStepConvicts(s, acts[0], mid, p, f);
      }
      ConvictionEndsTheSession(mid, acts[1..], t, p, f);
    }
  }

  /** The token a refresh was given, from its parsing to its rotation. */
  function Presented(proc: Proc): Option<TokenId> {
    match proc
    case Parsed(token) => Some(token)
    case Resolved(token, _, _, _) => Some(token)
    case Stamped(token, _, _, _) => Some(token)
    case Renewed(token, _, _, _, _) => Some(token)
    case _ => None
  }

  lemma LoserIsConvicted(s: State, a: Action, t: State, p: Pid)
    requires Inv(s) && Rotates(s, a) && Step(s, a) == Some(t)
    requires p in s.procs && p != a.p && Presented(s.procs[p]) == Some(s.procs[a.p].token)
    ensures Convicts(t, p, s.procs[a.p].family)
  {
    assert ProcTied(s, s.procs[p]) && ProcTied(s, s.procs[a.p]);
  }

  /** Of two refreshes holding one token, when one rotates it the other, however
      far it had come, has ended the session for both once it finishes. */
  lemma RaceLoserEndsTheSession(s: State, a: Action, t: State, acts: seq<Action>, u: State, p: Pid)
    requires Reachable(s) && Rotates(s, a) && Step(s, a) == Some(t) && Run(t, acts) == Some(u)
    requires p in s.procs && p != a.p && Presented(s.procs[p]) == Some(s.procs[a.p].token)
    requires forall b :: b in acts ==> Completes(p, b)
    requires p !in u.procs
    ensures var f := s.procs[a.p].family;
            && Dead(u.db, f) && RowRevoked(u.db, f)
            && forall later: seq<Action>, v: State :: Run(u, later) == Some(v) ==> Dead(v.db, f)
  {
    var f := s.procs[a.p].family;
    ReachableIsInvariant(s);
    StepKeeps(s, a, t);
    RunKeeps(t, acts, u);
    LoserIsConvicted(s, a, t, p);
    ConvictionEndsTheSession(t, acts, u, p, f);
    forall later: seq<Action>, v: State | Run(u, later) == Some(v)
      ensures Dead(v.db, f)
    {
      DeadStaysDead(u, later, v, f);
    }
  }

  // ----- deadlines

  /** Nothing minted for a session outlasts the deadline its login set, and
      later steps never move that deadline. */
  lemma NothingOutlivesTheLogin(s: State, acts: seq<Action>, t: State, f: SessionId)
    requires Reachable(s) && Run(s, acts) == Some(t) && f in s.logins
    ensures f in t.logins && t.logins[f] == s.logins[f]
    ensures forall token :: token in t.minted && token.sid == f ==> token.exp <= s.logins[f]
    ensures forall k :: k in t.db.tokens && t.db.tokens[k].family == f ==>
              t.db.tokens[k].claimExp <= s.logins[f] && t.db.tokens[k].expiresAt <= s.logins[f]
    ensures t.now >= s.logins[f] ==> forall p, k :: k in t.db.tokens && t.db.tokens[k].family == f ==>
              Step(t, Present(p, k)) == None
    ensures t.now >= s.logins[f] ==> forall token :: token in t.minted && token.sid == f ==> !Admits(t, token)
  {
    ReachableIsInvariant(s);
    RunKeeps(s, acts, t);
    forall k | k in t.db.tokens && t.db.tokens[k].family == f
      ensures t.db.tokens[k].claimExp <= s.logins[f] && t.db.tokens[k].expiresAt <= s.logins[f]
    {
      assert TokenTied(t, t.db.tokens[k]);
    }
  }

  /** A revoked session row refuses every access token of its session for ever. */
  lemma RevokedForEver(s: State, acts: seq<Action>, t: State, f: SessionId)
    requires Reachable(s) && Run(s, acts) == Some(t) && RowRevoked(s.db, f)
    ensures forall token: Access :: token.sid == f ==> !Admits(t, token)
  {
    ReachableIsInvariant(s);
    RunKeeps(s, acts, t);
  }

  // ----- the two halves of a session end together

  ghost predicate Swept(s: State, f: SessionId) {
    exists p :: p in s.procs && s.procs[p].Sweeping? && f in s.procs[p].families
  }

  ghost predicate RowPending(s: State, f: SessionId) {
    exists p :: p in s.procs && (s.procs[p] == EndingRow(f) || (s.procs[p].OwnedRow? && s.procs[p].sid == f))
  }

  /** Under a revoked row no refresh token is live, unless a sweep is about to
      reach it. */
  ghost predicate RowTakesFamily(s: State, f: SessionId) {
    RowRevoked(s.db, f) && HasLive(s.db, f) ==> Swept(s, f)
  }

  /** Over a dead family the row is revoked, unless a request is about to. */
  ghost predicate FamilyTakesRow(s: State) {
    forall f :: Dead(s.db, f) ==> RowRevoked(s.db, f) || RowPending(s, f)
  }

  ghost predicate Clean(s: State) {
    forall p :: p in s.procs && s.procs[p].EndingRow? ==> Dead(s.db, s.procs[p].family)
  }

  /** The step that splits a session: its login stores the first refresh token
      under a row already revoked, or a revocation takes the row down over one. */
  ghost predicate Overtakes(s: State, a: Action, f: SessionId) {
    || (StartsFamily(s, a) && s.procs[a.p].sid == f && RowRevoked(s.db, f) && !Swept(s, f))
    || (a.RevokeOwn? && a.p in s.procs && s.procs[a.p].OwnedRow? && s.procs[a.p].sid == f && HasLive(s.db, f)
         && !Swept(s, f))
  }

  ghost predicate LoginUnderWay(s: State, f: SessionId) {
    exists p :: p in s.procs && LoggingIn(s.procs[p]) == Some(f)
  }

  /** A revocation reads or writes the session before its login has stored the
      first refresh token: what a scheduler has to avoid. */
  ghost predicate Crosses(s: State, a: Action, f: SessionId) {
    && LoginUnderWay(s, f)
    && (|| (a.BulkRows? && f in BulkTargets(s.db, a.user, s.now, a.spared))
        || (a.RevokeTokens? && a.p in s.procs && s.procs[a.p].Owned? && s.procs[a.p].sid == f))
  }

  /** No revocation has got between the statements of the session's login. */
  ghost predicate Quiet(s: State, f: SessionId) {
    && (LoginUnderWay(s, f) ==> !RowRevoked(s.db, f))
    && forall p :: p in s.procs && s.procs[p].OwnedRow? && s.procs[p].sid == f ==>
         !HasLive(s.db, f) && !LoginUnderWay(s, f)
  }

  // The family statement of a request leaves the family dead.
  lemma EndedIsDead(s: State, a: Action, t: State)
    requires Inv(s) && Step(s, a) == Some(t) && !Fault(s, a) && !a.Tick?
    requires a.p in t.procs && t.procs[a.p].EndingRow? && !(a.p in s.procs && s.procs[a.p].EndingRow?)
    ensures Dead(t.db, t.procs[a.p].family)
  {
    assert ProcTied(s, s.procs[a.p]);
    RevokedFamilyIsDead(s.db, t.procs[a.p].family);
  }

  lemma StaysClean(s: State, a: Action, t: State)
    requires Inv(s) && Clean(s) && Step(s, a) == Some(t) && !Fault(s, a)
    ensures Clean(t)
  {
    if !a.Tick? {
      OneMoves(s, a, t);
    }
    forall p | p in t.procs && t.procs[p].EndingRow?
      ensures Dead(t.db, t.procs[p].family)
    {
      if p in s.procs && s.procs[p].EndingRow? {
        StepKeepsDead(s, a, t, t.procs[p].family);
      } else {
        EndedIsDead(s, a, t);
      }
    }
  }

  // A family gains a live token only by being started or rotated.
  lemma LiveComesFrom(s: State, a: Action, t: State, f: SessionId)
    requires Inv(s) && Step(s, a) == Some(t) && HasLive(t.db, f)
    ensures HasLive(s.db, f) || (StartsFamily(s, a) && s.procs[a.p].sid == f)
  {
    TokenChanges(s, a, t);
    var k :| Live(t.db, k) && t.db.tokens[k].family == f;
    if Rotates(s, a) {
      assert ProcTied(s, s.procs[a.p]);
      if k !in s.db.tokens {
        assert Live(s.db, s.procs[a.p].token) && s.db.tokens[s.procs[a.p].token].family == f;
      } else {
        assert Live(s.db, k);
      }
    } else if !StartsFamily(s, a) {
      assert Live(s.db, k);
    } else if s.procs[a.p].sid != f {
      assert Live(s.db, k);
    }
  }

  // A row goes down by its request's last statement or by a sweep.
  lemma RevocationComesFrom(s: State, a: Action, t: State, f: SessionId)
    requires Inv(s) && Step(s, a) == Some(t) && RowRevoked(t.db, f)
    ensures || RowRevoked(s.db, f)
            || (a.EndRow? && a.p in s.procs && s.procs[a.p] == EndingRow(f))
            || (a.RevokeOwn? && a.p in s.procs && s.procs[a.p].OwnedRow? && s.procs[a.p].sid == f)
            || (a.BulkRows? && Swept(t, f))
  {
    if a.BulkRows? && !RowRevoked(s.db, f) {
      assert a.p in t.procs && t.procs[a.p].Sweeping? && f in t.procs[a.p].families;
    }
  }

  lemma Undisturbed(s: State, a: Action, t: State, p: Pid)
    requires Step(s, a) == Some(t) && p in s.procs && (a.Tick? || a.p != p)
    ensures p in t.procs && t.procs[p] == s.procs[p]
  {
    if !a.Tick? {
      OneMoves(s, a, t);
      OthersStay(s, a, t);
    }
  }

  lemma SweepStays(s: State, a: Action, t: State, f: SessionId)
    requires Fresh(s) && Step(s, a) == Some(t) && !Fault(s, a) && Swept(s, f) && HasLive(t.db, f)
    ensures Swept(t, f)
  {
    var p :| p in s.procs && s.procs[p].Sweeping? && f in s.procs[p].families;
    if a.Tick? || a.p != p {
      Undisturbed(s, a, t, p);
    } else {
      SweeperSteps(s, a, t);
      assert a.BulkTokens? ==> a.family != f || !HasLive(t.db, f);
    }
    assert p in t.procs && t.procs[p].Sweeping? && f in t.procs[p].families;
  }

  lemma OvertakingSplits(s: State, a: Action, t: State, f: SessionId)
    requires Inv(s) && Step(s, a) == Some(t) && Overtakes(s, a, f)
    ensures !RowTakesFamily(t, f)
  {
    assert ProcTied(s, s.procs[a.p]);
    if StartsFamily(s, a) {
      assert Live(t.db, s.procs[a.p].refresh);
    } else {
      var k :| Live(s.db, k) && s.db.tokens[k].family == f;
      assert Live(t.db, k);
    }
    assert RowRevoked(t.db, f) && HasLive(t.db, f);
    OneMoves(s, a, t);
    assert !Swept(t, f);
  }

  /** Exactly the overtaking steps leave a live refresh token under a revoked
      row with nothing on its way to spend it. */
  lemma OnlyOvertakingSplitsASession(s: State, a: Action, t: State, f: SessionId)
    requires Inv(s) && Clean(s) && RowTakesFamily(s, f) && Step(s, a) == Some(t) && !Fault(s, a)
    ensures RowTakesFamily(t, f) == !Overtakes(s, a, f)
  {
    if Overtakes(s, a, f) {
      OvertakingSplits(s, a, t, f);
    } else if RowRevoked(t.db, f) && HasLive(t.db, f) {
      LiveComesFrom(s, a, t, f);
      RevocationComesFrom(s, a, t, f);
      if Swept(s, f) {
        SweepStays(s, a, t, f);
      }
    }
  }

  // ----- the schedules that split a session

  // A session number is logged into once.
  lemma LoginComesFrom(s: State, a: Action, t: State, f: SessionId)
    requires Inv(s) && Step(s, a) == Some(t) && LoginUnderWay(t, f)
    ensures LoginUnderWay(s, f) || f !in s.logins
  {
    var p :| p in t.procs && LoggingIn(t.procs[p]) == Some(f);
    if !a.Tick? {
      OneMoves(s, a, t);
    }
    assert p in s.procs && LoggingIn(s.procs[p]) == Some(f) ==> LoginUnderWay(s, f);
  }

  lemma NoTokensYet(s: State, f: SessionId)
    requires Inv(s) && LoginUnderWay(s, f)
    ensures !HasTokens(s.db, f)
  {
  }

  lemma BulkTakesTargets(s: State, a: Action, t: State, f: SessionId)
    requires Step(s, a) == Some(t) && a.BulkRows?
    ensures RowRevoked(t.db, f) ==> RowRevoked(s.db, f) || f in BulkTargets(s.db, a.user, s.now, a.spared)
  {
  }

  lemma QuietRow(s: State, a: Action, t: State, f: SessionId)
    requires Inv(s) && Quiet(s, f) && Step(s, a) == Some(t) && !Crosses(s, a, f) && LoginUnderWay(t, f)
    ensures !RowRevoked(t.db, f)
  {
    LoginComesFrom(s, a, t, f);
    assert !a.Tick? && a.p in s.procs ==> ProcTied(s, s.procs[a.p]);
    if a.BulkRows? {
      BulkTakesTargets(s, a, t, f);
    }
    if LoginUnderWay(s, f) {
      NoTokensYet(s, f);
    }
    if RowRevoked(t.db, f) {
      RevocationComesFrom(s, a, t, f);
    }
  }

  lemma StartingIsLoggingIn(s: State, a: Action, f: SessionId)
    ensures StartsFamily(s, a) && s.procs[a.p].sid == f ==> LoginUnderWay(s, f)
  {
    assert StartsFamily(s, a) ==> LoggingIn(s.procs[a.p]) == Some(s.procs[a.p].sid);
  }

  lemma QuietOwner(s: State, a: Action, t: State, f: SessionId, p: Pid)
    requires Inv(s) && Quiet(s, f) && Step(s, a) == Some(t) && !Crosses(s, a, f)
    requires p in t.procs && t.procs[p].OwnedRow? && t.procs[p].sid == f
    ensures !HasLive(t.db, f) && !LoginUnderWay(t, f)
  {
    if a.Tick? || a.p != p {
      if !a.Tick? {
        OneMoves(s, a, t);
      }
      assert ProcTied(s, s.procs[p]);
      StartingIsLoggingIn(s, a, f);
      if HasLive(t.db, f) {
        LiveComesFrom(s, a, t, f);
      }
    } else {
      assert a.RevokeTokens? && ProcTied(s, s.procs[p]);
    }
    if LoginUnderWay(t, f) {
      LoginComesFrom(s, a, t, f);
    }
  }

  lemma QuietStays(s: State, a: Action, t: State, f: SessionId)
    requires Inv(s) && Quiet(s, f) && Step(s, a) == Some(t) && !Crosses(s, a, f)
    ensures Quiet(t, f)
  {
    if LoginUnderWay(t, f) {
      QuietRow(s, a, t, f);
    }
    forall p | p in t.procs && t.procs[p].OwnedRow? && t.procs[p].sid == f
      ensures !HasLive(t.db, f) && !LoginUnderWay(t, f)
    {
      QuietOwner(s, a, t, f, p);
    }
  }

  lemma QuietIsNotOvertaken(s: State, a: Action, f: SessionId)
    requires Quiet(s, f)
    ensures !Overtakes(s, a, f)
  {
    StartingIsLoggingIn(s, a, f);
  }

  lemma SpentBy(s: State, a: Action, t: State, k: TokenId)
    requires Inv(s) && Step(s, a) == Some(t) && Live(s.db, k) && !Live(t.db, k)
    ensures var f := s.db.tokens[k].family;
            || Rotates(s, a)
            || (a.EndFamily? && a.p in t.procs && t.procs[a.p] == EndingRow(f))
            || (a.RevokeTokens? && a.p in t.procs && t.procs[a.p].OwnedRow? && t.procs[a.p].sid == f)
            || (a.BulkTokens? && a.p in s.procs && s.procs[a.p].Sweeping? && f in s.procs[a.p].families)
  {
  }

  lemma RotationLeavesOneLive(s: State, a: Action, t: State)
    requires Inv(s) && Step(s, a) == Some(t) && Rotates(s, a)
    ensures HasLive(t.db, s.procs[a.p].family)
    ensures forall k :: Live(s.db, k) && s.db.tokens[k].family != s.procs[a.p].family ==> Live(t.db, k)
  {
    assert ProcTied(s, s.procs[a.p]);
    assert Live(t.db, s.procs[a.p].next) && t.db.tokens[s.procs[a.p].next].family == s.procs[a.p].family;
  }

  lemma DeadBefore(s: State, a: Action, t: State, f: SessionId)
    requires Inv(s) && Step(s, a) == Some(t) && Dead(t.db, f) && !HasLive(s.db, f) && !StartsFamily(s, a)
    ensures Dead(s.db, f)
  {
    TokenChanges(s, a, t);
    var k :| k in t.db.tokens && t.db.tokens[k].family == f;
    if Rotates(s, a) && k == s.procs[a.p].next {
      RotationLeavesOneLive(s, a, t);
    } else {
      assert k in s.db.tokens && s.db.tokens[k].family == f;
    }
  }

  lemma DeathComesFrom(s: State, a: Action, t: State, f: SessionId)
    requires Inv(s) && Step(s, a) == Some(t) && Dead(t.db, f)
    ensures Dead(s.db, f) || RowRevoked(t.db, f) || RowPending(t, f)
  {
    StepGrows(s, a, t);
    if StartsFamily(s, a) {
      assert Live(t.db, s.procs[a.p].refresh);
    } else if HasLive(s.db, f) {
      var k :| Live(s.db, k) && s.db.tokens[k].family == f;
      assert !Live(t.db, k);
      SpentBy(s, a, t, k);
      if Rotates(s, a) {
        RotationLeavesOneLive(s, a, t);
      } else if a.BulkTokens? {
        assert ProcTied(s, s.procs[a.p]);
      }
    } else {
      DeadBefore(s, a, t, f);
    }
  }

  lemma PendingStays(s: State, a: Action, t: State, f: SessionId)
    requires Fresh(s) && Tied(s) && Step(s, a) == Some(t) && !Fault(s, a) && RowPending(s, f) && HasTokens(s.db, f)
    ensures RowPending(t, f) || RowRevoked(t.db, f)
  {
    var p :| p in s.procs && (s.procs[p] == EndingRow(f) || (s.procs[p].OwnedRow? && s.procs[p].sid == f));
    assert ProcTied(s, s.procs[p]);
    FamilyHasRow(s, f);
    if a.Tick? || a.p != p {
      Undisturbed(s, a, t, p);
      assert p in t.procs && t.procs[p] == s.procs[p];
    } else if s.procs[p].EndingRow? {
      EnderSteps(s, a, t);
    } else {
      OwnerSteps(s, a, t);
    }
  }

  /** A dead family always takes its row down, however the steps interleave. */
  lemma FamilyAlwaysTakesRow(s: State, a: Action, t: State)
    requires Inv(s) && FamilyTakesRow(s) && Step(s, a) == Some(t) && !Fault(s, a)
    ensures FamilyTakesRow(t)
  {
    forall f | Dead(t.db, f)
      ensures RowRevoked(t.db, f) || RowPending(t, f)
    {
      DeathComesFrom(s, a, t, f);
      StepGrows(s, a, t);
      if Dead(s.db, f) && RowPending(s, f) {
        PendingStays(s, a, t, f);
      }
    }
  }

  // ----- whole runs without faults

  /** A run in which nothing faults and no revocation crosses the session's
      login. */
  ghost predicate Orderly(s: State, acts: seq<Action>, f: SessionId)
    decreases |acts|
  {
    acts == [] || (
      && !Fault(s, acts[0]) && !Crosses(s, acts[0], f)
      && (Step(s, acts[0]).Some? ==> Orderly(Step(s, acts[0]).value, acts[1..], f)))
  }

  lemma {:induction false} OrderlyRunKeeps(s: State, acts: seq<Action>, t: State, f: SessionId)
    requires Inv(s) && Clean(s) && Quiet(s, f) && RowTakesFamily(s, f) && FamilyTakesRow(s)
    requires Run(s, acts) == Some(t) && Orderly(s, acts, f)
    ensures RowTakesFamily(t, f) && FamilyTakesRow(t)
    decreases |acts|
  {
    if acts != [] {
      var mid := Step(s, acts[0]).value;
      StepKeeps(s, acts[0], mid);
      StaysClean(s, acts[0], mid);
      QuietStays(s, acts[0], mid, f);
      QuietIsNotOvertaken(s, acts[0], f);
      OnlyOvertakingSplitsASession(s, acts[0], mid, f);
      FamilyAlwaysTakesRow(s, acts[0], mid);
      OrderlyRunKeeps(mid, acts[1..], t, f);
    }
  }

  /** When no request is under way after such a run, the two halves of a started
      session agree: its row is revoked exactly when no refresh token of it is
      live. */
  lemma HalvesAgree(acts: seq<Action>, t: State, f: SessionId)
    requires Run(Start(), acts) == Some(t) && Orderly(Start(), acts, f)
    requires t.procs == map[] && HasTokens(t.db, f)
    ensures RowRevoked(t.db, f) <==> !HasLive(t.db, f)
  {
    OrderlyRunKeeps(Start(), acts, t, f);
  }

  /** What the revocation that crosses the login of `f` does to `f` next. */
  function NextBlow(a: Action, f: SessionId): Action
    requires a.BulkRows? || a.RevokeTokens?
  {
    if a.BulkRows? then BulkTokens(a.p, f, true) else RevokeOwn(a.p)
  }

  // A sweep goes only after sessions whose row is down.
  lemma NotSwept(s: State, f: SessionId)
    requires Tied(s)
    ensures !RowRevoked(s.db, f) ==> !Swept(s, f)
  {
    assert forall p :: p in s.procs && s.procs[p].Sweeping? ==> ProcTied(s, s.procs[p]);
  }

  // Its owner's revocation leaves the row down and no sweep behind.
  lemma OwnerStrikes(s: State, a: Action, t: State, f: SessionId) returns (mid: State)
    requires Inv(s) && Quiet(s, f) && Crosses(s, a, f) && a.RevokeTokens? && Step(s, a) == Some(t)
    ensures Step(t, NextBlow(a, f)) == Some(mid)
    ensures RowRevoked(mid.db, f) && !Swept(mid, f)
    ensures a.p in s.procs && LoggingIn(s.procs[a.p]) == None
  {
    assert ProcTied(s, s.procs[a.p]);
    var user := s.procs[a.p].user;
    assert t == Become(s.(db := RevokeFamily(s.db, f)), a.p, OwnedRow(user, f));
    NotSwept(s, f);
    mid := Finish(t.(db := RevokeOwnRow(t.db, user, f)), a.p);
    assert mid.procs == s.procs - {a.p};
  }

  lemma BulkStrikes(s: State, a: Action, t: State, f: SessionId) returns (mid: State)
    requires Inv(s) && Quiet(s, f) && Crosses(s, a, f) && a.BulkRows? && Step(s, a) == Some(t)
    ensures Step(t, NextBlow(a, f)) == Some(mid)
    ensures RowRevoked(mid.db, f) && !Swept(mid, f)
    ensures a.p !in s.procs
  {
    NotSwept(s, f);
    var targets := BulkTargets(s.db, a.user, s.now, a.spared);
    assert t.procs == s.procs[a.p := Sweeping(a.user, targets)];
    mid := Step(t, NextBlow(a, f)).value;
    assert mid.procs == s.procs[a.p := Sweeping(a.user, targets - {f})];
  }

  lemma LastStatementSplits(s: State, q: Pid, f: SessionId) returns (t: State)
    requires q in s.procs && s.procs[q].Recorded? && s.procs[q].sid == f && RowRevoked(s.db, f) && !Swept(s, f)
    ensures Step(s, LoginStart(q)) == Some(t)
    ensures RowRevoked(t.db, f) && HasLive(t.db, f) && !Swept(t, f)
  {
    t := Step(s, LoginStart(q)).value;
    assert Live(t.db, s.procs[q].refresh) && t.db.tokens[s.procs[q].refresh].family == f;
  }

  lemma {:induction false} StepsMakeARun(acts: seq<Action>, states: seq<State>)
    requires |states| == |acts| + 1
    requires forall k :: 0 <= k < |acts| ==> Step(states[k], acts[k]) == Some(states[k + 1])
    ensures Run(states[0], acts) == Some(states[|acts|])
    decreases |acts|
  {
    if acts != [] {
      forall k | 0 <= k < |acts[1..]|
        ensures Step(states[1..][k], acts[1..][k]) == Some(states[1..][k + 1])
      {
        assert Step(states[k + 1], acts[k + 1]) == Some(states[k + 2]);
      }
      StepsMakeARun(acts[1..], states[1..]);
    }
  }

  /** Every crossing can split its session: from any state where nothing has
      crossed the login before, the revocation's next statement on the session
      and the login's last one are enough. */
  lemma EveryCrossingCanSplit(s: State, a: Action, t: State, f: SessionId) returns (rest: seq<Action>, u: State)
    requires Reachable(s) && Quiet(s, f) && Crosses(s, a, f) && Step(s, a) == Some(t)
    ensures |rest| == 2 && Run(t, rest) == Some(u)
    ensures rest[0] == NextBlow(a, f) && rest[1].LoginStart?
    ensures RowRevoked(u.db, f) && HasLive(u.db, f) && !Swept(u, f)
  {
    ReachableIsInvariant(s);
    var q :| q in s.procs && LoggingIn(s.procs[q]) == Some(f);
    assert ProcTied(s, s.procs[q]) && s.procs[q].Recorded?;
    var mid;
    if a.BulkRows? {
      mid := BulkStrikes(s, a, t, f);
    } else {
      mid := OwnerStrikes(s, a, t, f);
    }
    Undisturbed(s, a, t, q);
    Undisturbed(t, NextBlow(a, f), mid, q);
    u := LastStatementSplits(mid, q, f);
    rest := [NextBlow(a, f), LoginStart(q)];
    StepsMakeARun(rest, [t, mid, u]);
  }

  /** A login overtaken by a bulk revocation: nothing faults and nothing is left
      running, yet the client holds a refresh token it can go on spending for a
      session whose every access token is refused. */
  lemma OvertakenLoginStaysHalfAlive() returns (acts: seq<Action>, t: State)
    ensures Run(Start(), acts) == Some(t) && t.procs == map[]
    ensures forall k :: 0 <= k < |acts| ==> !acts[k].Abandon? && (acts[k].BulkTokens? ==> acts[k].written)
    ensures RowRevoked(t.db, 10) && HasLive(t.db, 10)
  {
    acts := [LoginMint(0, 1, 10, 100), LoginRecord(0), BulkRows(1, 1, None), BulkTokens(1, 10, true), BulkDone(1),
        LoginStart(0)];
    var s1 := Step(Start(), acts[0]).value;
    var s2 := Step(s1, acts[1]).value;
    assert s2.db.sessions == map[10 := Session(1, REFRESH_TTL, 0, false)];
    var s3 := Step(s2, acts[2]).value;
    assert BulkTargets(s2.db, 1, 0, None) == {10};
    var s4 := Step(s3, acts[3]).value;
    assert s4.procs[1] == Sweeping(1, {});
    var s5 := Step(s4, acts[4]).value;
    t := Step(s5, acts[5]).value;
    StepsMakeARun(acts, [Start(), s1, s2, s3, s4, s5, t]);
    assert t.procs.Keys == {};
    assert Live(t.db, 100);
  }
}
