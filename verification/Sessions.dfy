/** Camera sessions: one holder per approach, heartbeats, expiry, pairing, and registration through the handler. */
module Sessions {
  import opened Signals

  const HEARTBEAT_TIMEOUT_SEC := 10.0

  /** Tokens are numbers drawn from a counter: what matters is that a new one equals none issued before. */
  datatype Session = Session(token: nat, direction: string, connectedAt: real, lastHeartbeat: real)

  datatype Pairing = Pairing(node: string, token: nat, expiresAt: real)

  /** A registration that passed its checks and waits for the node's previous socket to close. */
  datatype Admission = Admission(node: string, direction: string, paired: bool)

  datatype Table = Table(sessions: map<string, Session>, pairings: map<string, Pairing>, pending: seq<Admission>,
                         nextToken: nat)

  const EMPTY := Table(map[], map[], [], 0)

  datatype Op =
    | Create(node: string, direction: string)
    | Admit(node: string, direction: string, token: nat)
    | Complete(k: nat)
    | Refresh(node: string, token: nat)
    | Remove(node: string)
    | Cleanup
    | OfferPairing(direction: string, pairing: Pairing)
    | LookUpPairing(direction: string)

  /** An operation and the clock when it runs. */
  datatype Event = At(now: real, op: Op)

  predicate Expired(s: Session, now: real) {
    now - s.lastHeartbeat > HEARTBEAT_TIMEOUT_SEC
  }

  predicate Valid(sessions: map<string, Session>, node: string, token: nat, now: real) {
    node in sessions && !Expired(sessions[node], now) && sessions[node].token == token
  }

  /** The nodes with an unexpired session for an approach. */
  function Holders(sessions: map<string, Session>, direction: string, now: real): set<string> {
    set n | n in sessions && sessions[n].direction == direction && !Expired(sessions[n], now)
  }

  function Created(t: Table, node: string, direction: string, now: real): Table {
    var others := Holders(t.sessions, direction, now) - {node};
    t.(sessions := (t.sessions - others)[node := Session(t.nextToken, direction, now, now)],
       nextToken := t.nextToken + 1)
  }

  /** An expired pairing is forgotten when it is looked up. */
  function Looked(t: Table, direction: string, now: real): Table {
    if direction in t.pairings && now > t.pairings[direction].expiresAt then t.(pairings := t.pairings - {direction})
    else t
  }

  predicate Paired(t: Table, node: string, direction: string, token: nat, now: real) {
    && direction in t.pairings && now <= t.pairings[direction].expiresAt
    && t.pairings[direction].node == node && t.pairings[direction].token == token
  }

  predicate Reconnects(t: Table, node: string, direction: string, token: nat, now: real) {
    Valid(t.sessions, node, token, now) && t.sessions[node].direction == direction
  }

  predicate Admits(t: Table, node: string, direction: string, token: nat, now: real) {
    && (Paired(t, node, direction, token, now) || Reconnects(t, node, direction, token, now))
    && Holders(t.sessions, direction, now) <= {node}
  }

  function Admitted(t: Table, node: string, direction: string, token: nat, now: real): Table {
    var looked := Looked(t, direction, now);
    if Admits(t, node, direction, token, now)
    then looked.(pending := t.pending + [Admission(node, direction, Paired(t, node, direction, token, now))])
    else looked
  }

  function Completed(t: Table, k: nat, now: real): Table
    requires k < |t.pending|
  {
    var a := t.pending[k];
    var created := Created(t, a.node, a.direction, now);
    created.(pending := t.pending[..k] + t.pending[k + 1..],
             pairings := if a.paired then t.pairings - {a.direction} else t.pairings)
  }

  function Refreshed(t: Table, node: string, token: nat, now: real): Table {
    if Valid(t.sessions, node, token, now)
    then t.(sessions := t.sessions[node := t.sessions[node].(lastHeartbeat := now)]) else t
  }

  function Step(t: Table, e: Event): Table {
    match e.op
    case Create(node, direction) => Created(t, node, direction, e.now)
    case Admit(node, direction, token) => Admitted(t, node, direction, token, e.now)
    case Complete(k) => if k < |t.pending| then Completed(t, k, e.now) else t
    case Refresh(node, token) => Refreshed(t, node, token, e.now)
    case Remove(node) => t.(sessions := t.sessions - {node})
    case Cleanup => t.(sessions := map n | n in t.sessions && !Expired(t.sessions[n], e.now) :: t.sessions[n])
    case OfferPairing(direction, pairing) => t.(pairings := t.pairings[direction := pairing])
    case LookUpPairing(direction) => Looked(t, direction, e.now)
  }

  function Steps(t: Table, events: seq<Event>): Table {
    if events == [] then t else Step(Steps(t, events[..|events| - 1]), events[|events| - 1])
  }

  /** Time never runs backwards, from `start` to `end`. */
  ghost predicate Clocked(start: real, events: seq<Event>, end: real) {
    && start <= end
    && (forall i | 0 <= i < |events| :: start <= events[i].now <= end)
    && forall i, j | 0 <= i < j < |events| :: events[i].now <= events[j].now
  }

  // ----- at most one unexpired session per approach -------------------------------------------------

  ghost predicate AtMostOne(sessions: map<string, Session>, now: real) {
    forall m, n |
      m != n && m in sessions && !Expired(sessions[m], now) && n in sessions && !Expired(sessions[n], now) ::
      sessions[m].direction != sessions[n].direction
  }

  ghost predicate Issued(t: Table) {
    forall n | n in t.sessions :: t.sessions[n].token < t.nextToken
  }

  lemma StaysAtMostOne(sessions: map<string, Session>, now: real, later: real)
    requires AtMostOne(sessions, now) && now <= later
    ensures AtMostOne(sessions, later)
  {
  }

  lemma CreatedKeeps(t: Table, node: string, direction: string, now: real)
    requires AtMostOne(t.sessions, now)
    ensures AtMostOne(Created(t, node, direction, now).sessions, now)
  {
  }

  lemma FewerKeeps(some: map<string, Session>, all: map<string, Session>, now: real)
    requires AtMostOne(all, now) && forall n | n in some :: n in all && some[n] == all[n]
    ensures AtMostOne(some, now)
  {
  }

  lemma StepKeeps(t: Table, e: Event)
    requires AtMostOne(t.sessions, e.now)
    ensures AtMostOne(Step(t, e).sessions, e.now)
  {
    match e.op
    case Create(node, direction) => CreatedKeeps(t, node, direction, e.now);
    case Complete(k) =>
      if k < |t.pending| {
        CreatedKeeps(t, t.pending[k].node, t.pending[k].direction, e.now);
      }
    case Refresh(_, _) =>
    case _ =>
      hide AtMostOne;
      FewerKeeps(Step(t, e).sessions, t.sessions, e.now);
  }

  /** In every reachable state, at every moment. */
  lemma {:induction false} OneSessionPerDirection(start: real, events: seq<Event>, end: real)
    requires Clocked(start, events, end)
    ensures AtMostOne(Steps(EMPTY, events).sessions, end)
  {
    hide Step;
    if events != [] {
      var n := |events| - 1;
      OneSessionPerDirection(start, events[..n], events[n].now);
      StepKeeps(Steps(EMPTY, events[..n]), events[n]);
      StaysAtMostOne(Steps(EMPTY, events).sessions, events[n].now, end);
    }
  }

  // ----- validity only ends ------------------------------------------------------------------------

  lemma StepIssues(t: Table, e: Event)
    requires Issued(t)
    ensures Issued(Step(t, e)) && t.nextToken <= Step(t, e).nextToken
  {
  }

  lemma {:induction false} StepsIssue(t: Table, events: seq<Event>)
    requires Issued(t)
    ensures Issued(Steps(t, events)) && t.nextToken <= Steps(t, events).nextToken
  {
    hide Step, Issued;
    if events != [] {
      var n := |events| - 1;
      StepsIssue(t, events[..n]);
      StepIssues(Steps(t, events[..n]), events[n]);
    }
  }

  lemma StepEnds(t: Table, e: Event, node: string, token: nat)
    requires Issued(t) && token < t.nextToken && Valid(Step(t, e).sessions, node, token, e.now)
    ensures Valid(t.sessions, node, token, e.now)
  {
  }

  /**
   * A token that was issued before and is valid now was valid all along: so an expired session never becomes valid
   * again, and a replaced or removed one never validates, whatever heartbeats, frames and registrations follow.
   */
  lemma {:induction false} ValidityOnlyEnds(t: Table, start: real, events: seq<Event>, end: real, node: string,
                                            token: nat)
    requires Clocked(start, events, end) && Issued(t) && token < t.nextToken
    requires Valid(Steps(t, events).sessions, node, token, end)
    ensures Valid(t.sessions, node, token, start)
  {
    hide Step, Issued;
    if events != [] {
      var n := |events| - 1;
      var before := Steps(t, events[..n]);
      StepsIssue(t, events[..n]);
      assert Valid(Step(before, events[n]).sessions, node, token, events[n].now);
      StepEnds(before, events[n], node, token);
      ValidityOnlyEnds(t, start, events[..n], events[n].now, node, token);
    }
  }

  // ----- registration ------------------------------------------------------------------------------

  /**
   A registration gets past its checks exactly with the token of an unexpired pairing of this node with the approach, or
   with that of its own unexpired session there, and while no other node holds the approach.
   */
  lemma AdmittedExactly(t: Table, node: string, direction: string, token: nat, now: real)
    ensures var pending := Step(t, At(now, Admit(node, direction, token))).pending;
      var paired := direction in t.pairings && t.pairings[direction].expiresAt >= now
                    && t.pairings[direction].node == node && t.pairings[direction].token == token;
      var known := node in t.sessions && t.sessions[node].direction == direction
                   && now - t.sessions[node].lastHeartbeat <= 10.0 && t.sessions[node].token == token;
      var free := OthersAway(t.sessions, node, direction, now);
      pending == if (paired || known) && free then t.pending + [Admission(node, direction, paired)] else t.pending
  {
    FreeMeans(t.sessions, node, direction, now);
  }

  /** Every other node of the approach has been silent for more than ten seconds. */
  ghost predicate OthersAway(sessions: map<string, Session>, node: string, direction: string, now: real) {
    forall n | n in sessions && n != node && sessions[n].direction == direction ::
      now - sessions[n].lastHeartbeat > 10.0
  }

  lemma FreeMeans(sessions: map<string, Session>, node: string, direction: string, now: real)
    ensures Holders(sessions, direction, now) <= {node} <==> OthersAway(sessions, node, direction, now)
  {
    if Holders(sessions, direction, now) <= {node} {
      forall n | n in sessions && n != node && sessions[n].direction == direction
        ensures now - sessions[n].lastHeartbeat > 10.0
      {
        assert n !in Holders(sessions, direction, now);
      }
    }
  }

  /** A session just created or refreshed is good for ten seconds, to the instant, if nothing happens to it. */
  lemma HeartbeatExtends(t: Table, node: string, token: nat, now: real, later: real)
    requires Valid(t.sessions, node, token, now)
    ensures Valid(Step(t, At(now, Refresh(node, token))).sessions, node, token, later) <==> later - now <= 10.0
  {}

  /** A completed registration gives the node a new token, good for as long, and uses up the pairing. */
  lemma CompletionGrants(t: Table, k: nat, now: real, later: real)
    requires k < |t.pending| && Issued(t)
    ensures var a := t.pending[k]; var t' := Step(t, At(now, Complete(k)));
      && (Valid(t'.sessions, a.node, t.nextToken, later) <==> later - now <= 10.0)
      && t'.sessions[a.node].direction == a.direction
      && (forall n | n in t.sessions :: t.sessions[n].token != t.nextToken)
      && (a.paired ==> a.direction !in t'.pairings)
      && multiset(t'.pending) == multiset(t.pending) - multiset{a}
  {
    RemoveOne(t.pending, k);
  }

  lemma RemoveOne<T>(xs: seq<T>, k: nat)
    requires k < |xs|
    ensures multiset(xs[..k] + xs[k + 1..]) == multiset(xs) - multiset{xs[k]}
  {
    assert xs == xs[..k] + [xs[k]] + xs[k + 1..];
  }

  /** Looking a pairing up forgets it exactly when it has expired, and touches no other. */
  lemma LookUpForgets(t: Table, direction: string, now: real, other: string)
    ensures var after := Step(t, At(now, LookUpPairing(direction))).pairings;
      && (other in after <==> other in t.pairings && (other != direction || t.pairings[other].expiresAt >= now))
      && (other in after ==> after[other] == t.pairings[other])
  {}

  /** A removed node has no session, and no other node loses its own. */
  lemma RemovalEnds(t: Table, node: string, now: real, other: string, token: nat)
    ensures var after := Step(t, At(now, Remove(node))).sessions;
      Valid(after, other, token, now) <==> other != node && Valid(t.sessions, other, token, now)
  {}

  /** A cleanup ends no valid session, and leaves none that is not. */
  lemma CleanupExactly(t: Table, now: real, node: string)
    ensures var after := Step(t, At(now, Cleanup)).sessions;
      node in after <==> node in t.sessions && Valid(t.sessions, node, t.sessions[node].token, now)
    ensures var after := Step(t, At(now, Cleanup)).sessions; node in after ==> after[node] == t.sessions[node]
  {}

  /** A completed registration ends another node's session exactly when that session is for the same approach. */
  lemma CompletionEvicts(t: Table, k: nat, now: real, other: string, token: nat)
    requires k < |t.pending| && other != t.pending[k].node && Valid(t.sessions, other, token, now)
    ensures Valid(Completed(t, k, now).sessions, other, token, now)
            <==> t.sessions[other].direction != t.pending[k].direction
    ensures Holders(Completed(t, k, now).sessions, t.pending[k].direction, now) == {t.pending[k].node}
  {
  }

  /** A registration that is checked and completed without a pause displaces nobody. */
  lemma RegistrationDisplacesNobody(t: Table, node: string, direction: string, token: nat, now: real, other: string,
                                    theirs: nat)
    requires Admits(t, node, direction, token, now) && other != node && Valid(t.sessions, other, theirs, now)
    ensures var admitted := Step(t, At(now, Admit(node, direction, token)));
      Valid(Step(admitted, At(now, Complete(|t.pending|))).sessions, other, theirs, now)
  {
    var admitted := Step(t, At(now, Admit(node, direction, token)));
    assert admitted.pending[|t.pending|].node == node && admitted.pending[|t.pending|].direction == direction;
    assert other !in Holders(t.sessions, direction, now);
    CompletionEvicts(admitted, |t.pending|, now, other, theirs);
  }

  const RACE := [
    At(0.0, OfferPairing("north", Pairing("A", 0, 60.0))), At(1.0, Admit("A", "north", 0)),
    At(2.0, OfferPairing("north", Pairing("B", 1, 60.0))), At(3.0, Admit("B", "north", 1)),
    At(4.0, Complete(1))]

  /**
   * With a pause in between it can: while A waits for its old socket to close, B is paired, checked and registered for
   * the same approach; then A completes and B's session, unexpired, is gone.
   */
  lemma PausedRegistrationDisplaces()
    ensures var t := Steps(EMPTY, RACE);
      && |t.pending| == 1 && t.pending[0].node == "A"
      && Valid(t.sessions, "B", 0, 5.0)
      && !Valid(Step(t, At(5.0, Complete(0))).sessions, "B", 0, 5.0)
  {
    var t1 := Step(EMPTY, RACE[0]);
    var t2 := Step(t1, RACE[1]);
    var t3 := Step(t2, RACE[2]);
    var t4 := Step(t3, RACE[3]);
    var t5 := Step(t4, RACE[4]);
    assert "A" != "B";
    assert t2.pending == [Admission("A", "north", true)];
    assert t4.pending == [Admission("A", "north", true), Admission("B", "north", true)];
    assert t5.pending == [Admission("A", "north", true)];
    StepsOfFive(EMPTY, RACE);
    CompletionEvicts(t5, 0, 5.0, "B", 0);
  }

  lemma StepsOfFive(t: Table, es: seq<Event>)
    requires |es| == 5
    ensures Steps(t, es) == Step(Step(Step(Step(Step(t, es[0]), es[1]), es[2]), es[3]), es[4])
  {
    hide Step;
    assert es[..4][..3] == es[..3] && es[..3][..2] == es[..2] && es[..2][..1] == es[..1] && es[..1][..0] == [];
    assert Steps(t, es[..1]) == Step(t, es[0]);
    assert Steps(t, es[..2]) == Step(Steps(t, es[..1]), es[1]);
    assert Steps(t, es[..3]) == Step(Steps(t, es[..2]), es[2]);
    assert Steps(t, es[..4]) == Step(Steps(t, es[..3]), es[3]);
  }

  // ----- the manager and the handler ---------------------------------------------------------------

  class SessionManager {
    var sessions: map<string, Session>
    var pairingSessions: map<string, Pairing>
    var nextToken: nat

    constructor ()
      ensures sessions == map[] && pairingSessions == map[] && nextToken == 0
    {
      sessions, pairingSessions, nextToken := map[], map[], 0;
    }

    ghost function View(pending: seq<Admission>): Table
      reads this
    {
      Table(sessions, pairingSessions, pending, nextToken)
    }

    method GetSessionByDirection(direction: string, now: real) returns (node: Option<string>)
      ensures node.Some? ==> node.value in Holders(sessions, direction, now)
      ensures node.None? ==> Holders(sessions, direction, now) == {}
    {
      node := None;
      var todo := sessions.Keys;
      while todo != {}
        invariant todo <= sessions.Keys
        invariant forall n | n in sessions.Keys - todo :: n !in Holders(sessions, direction, now)
      {
        var n :| n in todo;
        if sessions[n].direction == direction && !Expired(sessions[n], now) {
          return Some(n);
        }
        todo := todo - {n};
      }
    }

    method CreateSession(node: string, direction: string, now: real) returns (session: Session)
      requires AtMostOne(sessions, now)
      modifies this
      ensures forall pending :: View(pending) == Created(old(View(pending)), node, direction, now)
      ensures node in sessions && session == sessions[node] && AtMostOne(sessions, now)
    {
      ghost var others := Holders(sessions, direction, now) - {node};
      var existing := GetSessionByDirection(direction, now);
      if existing.Some? && existing.value != node {
        assert others == {existing.value};
        RemoveSession(existing.value);
      } else {
        assert others == {};
        assert sessions - {} == sessions;
      }
      session := Session(nextToken, direction, now, now);
      sessions := sessions[node := session];
      nextToken := nextToken + 1;
    }

    method ValidateSession(node: string, token: nat, now: real) returns (valid: bool)
      ensures valid == Valid(sessions, node, token, now)
    {
      if node !in sessions {
        return false;
      }
      var session := sessions[node];
      valid := !(now - session.lastHeartbeat > HEARTBEAT_TIMEOUT_SEC) && session.token == token;
    }

    method UpdateHeartbeat(node: string, token: nat, now: real) returns (updated: bool)
      modifies this`sessions
      ensures forall pending :: View(pending) == Refreshed(old(View(pending)), node, token, now)
      ensures updated == old(Valid(sessions, node, token, now))
    {
      updated := ValidateSession(node, token, now);
      if updated {
        sessions := sessions[node := sessions[node].(lastHeartbeat := now)];
      }
    }

    method RemoveSession(node: string)
      modifies this`sessions
      ensures sessions == old(sessions) - {node}
    {
      sessions := sessions - {node};
    }

    method CleanupExpiredSessions(now: real) returns (expired: set<string>)
      modifies this`sessions
      ensures expired == set n | n in old(sessions) && Expired(old(sessions)[n], now)
      ensures forall pending :: View(pending) == Step(old(View(pending)), At(now, Cleanup))
    {
      expired := {};
      var todo := sessions.Keys;
      while todo != {}
        modifies {}
        invariant todo <= sessions.Keys
        invariant expired == set n | n in sessions.Keys - todo && Expired(sessions[n], now)
      {
        var n :| n in todo;
        if Expired(sessions[n], now) {
          expired := expired + {n};
        }
        todo := todo - {n};
      }
      var gone := expired;
      while gone != {}
        invariant gone <= expired && sessions == old(sessions) - (expired - gone)
      {
        var n :| n in gone;
        RemoveSession(n);
        gone := gone - {n};
      }
      assert sessions == map n | n in old(sessions) && !Expired(old(sessions)[n], now) :: old(sessions)[n];
    }

    method RegisterPairingSession(direction: string, pairing: Pairing)
      modifies this`pairingSessions
      ensures forall pending :: View(pending) == Step(old(View(pending)), At(0.0, OfferPairing(direction, pairing)))
    {
      pairingSessions := pairingSessions[direction := pairing];
    }

    method GetPairingSession(direction: string, now: real) returns (pairing: Option<Pairing>)
      modifies this`pairingSessions
      ensures forall pending :: View(pending) == Looked(old(View(pending)), direction, now)
      ensures pairing == if direction in pairingSessions then Some(pairingSessions[direction]) else None
      ensures pairing.Some? ==> now <= pairing.value.expiresAt
    {
      if direction !in pairingSessions {
        return None;
      }
      if now > pairingSessions[direction].expiresAt {
        pairingSessions := pairingSessions - {direction};
        return None;
      }
      pairing := Some(pairingSessions[direction]);
    }

    method ValidatePairingSession(direction: string, node: string, token: nat, now: real) returns (valid: bool)
      modifies this`pairingSessions
      ensures forall pending :: View(pending) == Looked(old(View(pending)), direction, now)
      ensures valid == old(Paired(View([]), node, direction, token, now))
    {
      assert View([]).pairings == pairingSessions;
      var pairing := GetPairingSession(direction, now);
      assert View([]).pairings == pairingSessions;
      valid := pairing.Some? && pairing.value.node == node && pairing.value.token == token;
    }
  }

  class MessageHandler {
    const sessionManager: SessionManager
    var pending: seq<Admission>

    constructor ()
      ensures fresh(sessionManager) && View() == EMPTY
    {
      sessionManager := new SessionManager();
      pending := [];
    }

    ghost function View(): Table
      reads this, sessionManager
    {
      sessionManager.View(pending)
    }

    /** Registration up to the point where it waits for the node's previous socket. */
    method AdmitRegistration(node: string, direction: string, token: nat, now: real) returns (admitted: bool)
      requires AtMostOne(sessionManager.sessions, now)
      modifies this, sessionManager
      ensures View() == Step(old(View()), At(now, Admit(node, direction, token)))
      ensures admitted == old(Admits(View(), node, direction, token, now))
    {
      ghost var t := View();
      var valid := sessionManager.ValidateSession(node, token, now);
      var isReconnect := valid && sessionManager.sessions[node].direction == direction;
      var isPaired := sessionManager.ValidatePairingSession(direction, node, token, now);
      assert isPaired == Paired(t, node, direction, token, now)
             && isReconnect == Reconnects(t, node, direction, token, now);
      assert View() == Looked(t, direction, now);
      if !isPaired && !isReconnect {
        return false;
      }
      var previous := sessionManager.GetSessionByDirection(direction, now);
      if previous.Some? && previous.value != node {
        return false;
      }
      assert Holders(t.sessions, direction, now) <= {node};
      pending := pending + [Admission(node, direction, isPaired)];
      admitted := true;
    }

    /** The rest of the registration. */
    method CompleteRegistration(k: nat, now: real) returns (session: Session)
      requires k < |pending| && AtMostOne(sessionManager.sessions, now)
      modifies this, sessionManager
      ensures View() == Step(old(View()), At(now, Complete(k)))
      ensures AtMostOne(sessionManager.sessions, now)
    {
      var a := pending[k];
      session := sessionManager.CreateSession(a.node, a.direction, now);
      assert View() == Created(old(View()), a.node, a.direction, now);
      if a.paired {
        sessionManager.pairingSessions := sessionManager.pairingSessions - {a.direction};
      }
      pending := pending[..k] + pending[k + 1..];
    }
  }
}
