/** Generated authorizations (Xext/security.c): who uses them, and when one that is not used expires. */
module Authorizations {
  import opened Options
  import opened Wire

  type AuthId = nat

  type ClientId = nat

  const MILLI_PER_SECOND := 1000

  /** The seconds that 32 bits of milliseconds can hold */
  const MAX_SECS: Card32 := 0xFFFF_FFFF / MILLI_PER_SECOND

  /** The timer of an authorization: not yet made, not set, or set to go off after a delay */
  datatype Timer = NoTimer | Idle | Armed(delay: Card32)

  /** `waited` is the time since the timer was started, in milliseconds, up to when it was last set. */
  datatype Auth = Auth(timeout: Card32, refcnt: nat, secondsRemaining: Card32, timer: Timer, waited: nat)

  datatype ClientState = ClientState(authId: Option<AuthId>, live: bool)

  datatype State = State(auths: map<AuthId, Auth>, clients: map<ClientId, ClientState>)

  // The timer.

  /** SecurityComputeAuthorizationTimeout: the next delay, and the seconds it leaves for later */
  function ComputeTimeout(seconds: Card32): (r: (Card32, Card32))
    ensures r.0 + MILLI_PER_SECOND * r.1 == MILLI_PER_SECOND * seconds
    ensures r.0 == 0 <==> seconds == 0
    ensures seconds > 0 ==> r.1 < seconds
  {
    if seconds > MAX_SECS then (MAX_SECS * MILLI_PER_SECOND, seconds - MAX_SECS)
    else (seconds * MILLI_PER_SECOND, 0)
  }

  /** The delays the timer is set to, one after another */
  function Delays(seconds: Card32): seq<Card32>
    decreases seconds
  {
    var (delay, rest) := ComputeTimeout(seconds);
    if rest == 0 then [delay] else [delay] + Delays(rest)
  }

  function Sum(s: seq<Card32>): nat {
    if s == [] then 0 else s[0] + Sum(s[1..])
  }

  /** Any 32-bit timeout is waited for in full, in delays that fit 32 bits: all but the last as long as they can be. */
  lemma {:induction false} DelaysSum(seconds: Card32)
    ensures Sum(Delays(seconds)) == MILLI_PER_SECOND * seconds
    ensures forall i | 0 <= i < |Delays(seconds)| - 1 :: Delays(seconds)[i] == MAX_SECS * MILLI_PER_SECOND
    ensures seconds > 0 ==> forall i | 0 <= i < |Delays(seconds)| :: Delays(seconds)[i] > 0
    decreases seconds
  {
    var (delay, rest) := ComputeTimeout(seconds);
    if rest == 0 {
      assert Sum([delay]) == delay + Sum([]);
    } else {
      DelaysSum(rest);
      assert Delays(seconds)[1..] == Delays(rest);
    }
  }

  /** TimerSet: a delay of zero only stops the timer. */
  function SetTimer(delay: Card32): Timer {
    if delay == 0 then Idle else Armed(delay)
  }

  /** SecurityStartAuthorizationTimer */
  function StartTimer(a: Auth): Auth {
    var (delay, rest) := ComputeTimeout(a.timeout);
    a.(timer := SetTimer(delay), secondsRemaining := rest, waited := 0)
  }

  // The events.

  function Generate(s: State, id: AuthId, timeout: Card32): State {
    var a := Auth(timeout, 0, 0, NoTimer, 0);
    s.(auths := s.auths[id := if timeout != 0 then StartTimer(a) else a])
  }

  function ClientInitial(s: State, c: ClientId): State {
    s.(clients := s.clients[c := ClientState(None, false)])
  }

  function ClientRunning(s: State, c: ClientId, id: AuthId): State
    requires c in s.clients
  {
    if id in s.auths then
      var a := s.auths[id].(refcnt := s.auths[id].refcnt + 1);
      var a' := if a.refcnt == 1 && a.timer != NoTimer then a.(timer := Idle) else a;
      State(s.auths[id := a'], s.clients[c := ClientState(Some(id), true)])
    else s.(clients := s.clients[c := s.clients[c].(authId := Some(id))])
  }

  predicate Uses(s: State, c: ClientId, id: AuthId) {
    c in s.clients && s.clients[c].live && s.clients[c].authId == Some(id)
  }

  /** The client is going away, or is retained when it has gone. */
  function ClientLeaves(s: State, c: ClientId): State
    requires c in s.clients
  {
    var st := s.clients[c];
    if st.authId.Some? && st.authId.value in s.auths && st.live then
      var id := st.authId.value;
      var a := s.auths[id];
      var refcnt := if a.refcnt == 0 then 0xFFFF_FFFF else a.refcnt - 1;
      var a' := a.(refcnt := refcnt);
      State(s.auths[id := if refcnt == 0 then StartTimer(a') else a'], s.clients[c := st.(live := false)])
    else s
  }

  function ClientGone(s: State, c: ClientId): State
    requires c in s.clients
  {
    var s1 := ClientLeaves(s, c);
    s1.(clients := s1.clients - {c})
  }

  /** SecurityDeleteAuthorization: the clients of the authorization are closed down; some may be retained. */
  function Delete(s: State, id: AuthId, retained: set<ClientId>): State {
    State(s.auths - {id},
          map c | c in s.clients && (s.clients[c].authId != Some(id) || c in retained) :: s.clients[c])
  }

  /** SecurityAuthorizationExpired, called when the timer goes off */
  function Expired(s: State, id: AuthId, retained: set<ClientId>): State
    requires id in s.auths && s.auths[id].timer.Armed?
  {
    var a := s.auths[id];
    if a.secondsRemaining > 0 then
      var (delay, rest) := ComputeTimeout(a.secondsRemaining);
      s.(auths := s.auths[id := a.(timer := SetTimer(delay), secondsRemaining := rest, waited := a.waited + a.timer.delay)])
    else Delete(s, id, retained)
  }

  datatype Event =
    | EGenerate(id: AuthId, timeout: Card32)
    | EInitial(c: ClientId)
    | ERunning(c: ClientId, id: AuthId)
    | ERetained(c: ClientId)
    | EGone(c: ClientId)
    | ETimer(id: AuthId, retained: set<ClientId>)
    | ERevoke(id: AuthId, retained: set<ClientId>)

  /**
   * Only a timer that is set goes off, identifiers of authorizations are not used again, and a client is given its
   * authorization once, when it has connected.
   */
  predicate Legal(s: State, e: Event) {
    match e
    case EGenerate(id, _) => id !in s.auths && forall c | c in s.clients :: s.clients[c].authId != Some(id)
    case EInitial(c) => c !in s.clients
    case ERunning(c, _) => c in s.clients && !s.clients[c].live
    case ERetained(c) => c in s.clients
    case EGone(c) => c in s.clients
    case ETimer(id, _) => id in s.auths && s.auths[id].timer.Armed?
    case ERevoke(id, _) => true
  }

  function Step(s: State, e: Event): State
    requires Legal(s, e)
  {
    match e
    case EGenerate(id, timeout) => Generate(s, id, timeout)
    case EInitial(c) => ClientInitial(s, c)
    case ERunning(c, id) => ClientRunning(s, c, id)
    case ERetained(c) => ClientLeaves(s, c)
    case EGone(c) => ClientGone(s, c)
    case ETimer(id, retained) => Expired(s, id, retained)
    case ERevoke(id, retained) => if id in s.auths then Delete(s, id, retained) else s
  }

  // What every run keeps.

  function Users(s: State, id: AuthId): set<ClientId> {
    set c | c in s.clients && Uses(s, c, id)
  }

  ghost predicate AuthInv(a: Auth, users: nat) {
    a.refcnt == users &&
    (a.timer.Armed? ==>
       a.refcnt == 0 &&
       a.waited + a.timer.delay + MILLI_PER_SECOND * a.secondsRemaining == MILLI_PER_SECOND * a.timeout) &&
    (a.refcnt == 0 ==> a.timer.Armed? || a.timeout == 0)
  }

  /** refcnt is the number of live clients; the timer is set exactly while there are none, unless there is no timeout. */
  ghost predicate Inv(s: State) {
    forall id | id in s.auths :: AuthInv(s.auths[id], |Users(s, id)|)
  }

  lemma GenerateInv(s: State, id: AuthId, timeout: Card32)
    requires Inv(s) && Legal(s, EGenerate(id, timeout))
    ensures Inv(Generate(s, id, timeout))
  {
    hide AuthInv;
    var s' := Generate(s, id, timeout);
    forall id' | id' in s'.auths
      ensures AuthInv(s'.auths[id'], |Users(s', id')|)
    {
      assert Users(s', id') == Users(s, id');
      if id' == id {
        assert Users(s, id) == {};
        FreshInv(timeout);
      }
    }
  }

  lemma FreshInv(timeout: Card32)
    ensures var a := Auth(timeout, 0, 0, NoTimer, 0); AuthInv(if timeout != 0 then StartTimer(a) else a, 0)
  {
  }

  lemma InitialInv(s: State, c: ClientId)
    requires Inv(s) && c !in s.clients
    ensures Inv(ClientInitial(s, c))
  {
    hide AuthInv;
    var s' := ClientInitial(s, c);
    forall id | id in s'.auths
      ensures AuthInv(s'.auths[id], |Users(s', id)|)
    {
      assert Users(s', id) == Users(s, id);
    }
  }

  lemma RunningInv(s: State, c: ClientId, id: AuthId)
    requires Inv(s) && c in s.clients && !s.clients[c].live
    ensures Inv(ClientRunning(s, c, id))
  {
    hide AuthInv;
    var s' := ClientRunning(s, c, id);
    forall id' | id' in s'.auths
      ensures AuthInv(s'.auths[id'], |Users(s', id')|)
    {
      if id' == id {
        assert Users(s', id) == Users(s, id) + {c};
        OneMoreInv(s.auths[id], |Users(s, id)|);
      } else {
        assert Users(s', id') == Users(s, id');
      }
    }
  }

  lemma OneMoreInv(a: Auth, users: nat)
    requires AuthInv(a, users)
    ensures var a' := a.(refcnt := a.refcnt + 1);
            AuthInv(if a'.refcnt == 1 && a'.timer != NoTimer then a'.(timer := Idle) else a', users + 1)
  {
  }

  lemma LeavesInv(s: State, c: ClientId)
    requires Inv(s) && c in s.clients
    ensures Inv(ClientLeaves(s, c))
    ensures forall id | id in ClientLeaves(s, c).auths :: c !in Users(ClientLeaves(s, c), id)
  {
    hide AuthInv;
    var s' := ClientLeaves(s, c);
    var st := s.clients[c];
    if st.authId.Some? && st.authId.value in s.auths && st.live {
      var id := st.authId.value;
      assert c in Users(s, id) && Users(s', id) == Users(s, id) - {c};
      OneLessInv(s.auths[id], |Users(s, id)|);
      forall id' | id' in s'.auths
        ensures AuthInv(s'.auths[id'], |Users(s', id')|) && c !in Users(s', id')
      {
        if id' != id {
          assert Users(s', id') == Users(s, id');
        }
      }
    }
  }

  lemma RunningUsers(s: State, c: ClientId, id: AuthId)
    requires Inv(s) && c in s.clients && !s.clients[c].live
    ensures var s' := ClientRunning(s, c, id);
      && s'.auths.Keys == s.auths.Keys
      && (forall x | x in s'.auths :: Users(s', x) == Users(s, x) + if x == id then {c} else {})
      && (id in s'.auths ==> !s'.auths[id].timer.Armed?)
  {
    hide AuthInv, Inv;
    RunningInv(s, c, id);
    var s' := ClientRunning(s, c, id);
    forall x | x in s'.auths
      ensures Users(s', x) == Users(s, x) + if x == id then {c} else {}
    {
    }
    if id in s'.auths {
      UserCounts(s', id, c);
    }
  }

  lemma LeavesUsers(s: State, c: ClientId)
    requires Inv(s) && c in s.clients
    ensures var s' := ClientLeaves(s, c);
      && s'.auths.Keys == s.auths.Keys
      && (forall x | x in s'.auths :: Users(s', x) == Users(s, x) - {c})
      && (forall x | x in s'.auths && Users(s', x) == {} :: s'.auths[x].timer.Armed? || s'.auths[x].timeout == 0)
  {
    LeavesInv(s, c);
    var s' := ClientLeaves(s, c);
    forall x | x in s'.auths
      ensures Users(s', x) == Users(s, x) - {c}
      ensures Users(s', x) == {} ==> s'.auths[x].timer.Armed? || s'.auths[x].timeout == 0
    {
      assert c !in Users(s', x);
      if Users(s', x) == {} {
        UnusedExpires(s', x);
      }
    }
  }

  lemma OneLessInv(a: Auth, users: nat)
    requires AuthInv(a, users) && users > 0
    ensures a.refcnt > 0
    ensures var a' := a.(refcnt := a.refcnt - 1); AuthInv(if a'.refcnt == 0 then StartTimer(a') else a', users - 1)
  {
  }

  lemma GoneInv(s: State, c: ClientId)
    requires Inv(s) && c in s.clients
    ensures Inv(ClientGone(s, c))
  {
    hide AuthInv, ClientLeaves;
    LeavesInv(s, c);
    var s1, s' := ClientLeaves(s, c), ClientGone(s, c);
    forall id | id in s'.auths
      ensures AuthInv(s'.auths[id], |Users(s', id)|)
    {
      assert Users(s', id) == Users(s1, id);
    }
  }

  lemma DeleteInv(s: State, id: AuthId, retained: set<ClientId>)
    requires Inv(s)
    ensures Inv(Delete(s, id, retained))
  {
    hide AuthInv;
    var s' := Delete(s, id, retained);
    forall id' | id' in s'.auths
      ensures AuthInv(s'.auths[id'], |Users(s', id')|)
    {
      assert Users(s', id') == Users(s, id');
    }
  }

  lemma ExpiredInv(s: State, id: AuthId, retained: set<ClientId>)
    requires Inv(s) && id in s.auths && s.auths[id].timer.Armed?
    ensures Inv(Expired(s, id, retained))
  {
    hide AuthInv;
    if s.auths[id].secondsRemaining > 0 {
      var s' := Expired(s, id, retained);
      NextDelayInv(s.auths[id], |Users(s, id)|);
      forall id' | id' in s'.auths
        ensures AuthInv(s'.auths[id'], |Users(s', id')|)
      {
        assert Users(s', id') == Users(s, id');
      }
    } else {
      DeleteInv(s, id, retained);
    }
  }

  lemma NextDelayInv(a: Auth, users: nat)
    requires AuthInv(a, users) && a.timer.Armed? && a.secondsRemaining > 0
    ensures var (delay, rest) := ComputeTimeout(a.secondsRemaining);
            AuthInv(a.(timer := SetTimer(delay), secondsRemaining := rest, waited := a.waited + a.timer.delay), users)
  {
  }

  lemma StepInv(s: State, e: Event)
    requires Inv(s) && Legal(s, e)
    ensures Inv(Step(s, e))
  {
    hide Inv, ClientLeaves, ClientGone, ClientRunning, ClientInitial, Generate, Delete, Expired;
    match e
    case EGenerate(id, timeout) => GenerateInv(s, id, timeout);
    case EInitial(c) => InitialInv(s, c);
    case ERunning(c, id) => RunningInv(s, c, id);
    case ERetained(c) => LeavesInv(s, c);
    case EGone(c) => GoneInv(s, c);
    case ETimer(id, retained) => ExpiredInv(s, id, retained);
    case ERevoke(id, retained) => DeleteInv(s, id, retained);
  }

  ghost predicate LegalRun(s: State, run: seq<Event>)
    decreases |run|
  {
    run != [] ==> Legal(s, run[0]) && LegalRun(Step(s, run[0]), run[1..])
  }

  ghost function Run(s: State, run: seq<Event>): State
    requires LegalRun(s, run)
    decreases |run|
  {
    if run == [] then s else Run(Step(s, run[0]), run[1..])
  }

  lemma {:induction false} RunInv(s: State, run: seq<Event>)
    requires Inv(s) && LegalRun(s, run)
    ensures Inv(Run(s, run))
    decreases |run|
  {
    hide Inv, Legal, Step;
    if run != [] {
      StepInv(s, run[0]);
      RunInv(Step(s, run[0]), run[1..]);
    }
  }

  /** An event that takes the client off its authorization, or the authorization away by request */
  predicate Ends(e: Event, c: ClientId, id: AuthId) {
    e == EGone(c) || e == ERetained(c) || (e.ERevoke? && e.id == id)
  }

  lemma UserCounts(s: State, id: AuthId, c: ClientId)
    requires Inv(s) && id in s.auths && Uses(s, c, id)
    ensures s.auths[id].refcnt > 0 && !s.auths[id].timer.Armed?
  {
    assert c in Users(s, id);
    assert AuthInv(s.auths[id], |Users(s, id)|);
  }

  lemma StepKeepsUser(s: State, e: Event, c: ClientId, id: AuthId)
    requires Inv(s) && Legal(s, e) && id in s.auths && Uses(s, c, id) && !Ends(e, c, id)
    ensures id in Step(s, e).auths && Uses(Step(s, e), c, id)
  {
    hide Inv;
    UserCounts(s, id, c);
  }

  /** A client that connects has no authorization and is not live; one that goes away is no user of any. */
  lemma ComesAndGoes(s: State, c: ClientId)
    requires Inv(s)
    ensures c !in s.clients ==> Step(s, EInitial(c)) == s.(clients := s.clients[c := ClientState(None, false)])
    ensures c in s.clients ==>
              var s' := Step(s, EGone(c));
              && s'.clients == s.clients - {c} && s'.auths.Keys == s.auths.Keys
              && forall id | id in s'.auths :: Users(s', id) == Users(s, id) - {c}
  {
    hide Inv;
    if c in s.clients {
      LeavesUsers(s, c);
      var s1, s' := ClientLeaves(s, c), Step(s, EGone(c));
      forall id | id in s'.auths
        ensures Users(s', id) == Users(s, id) - {c}
      {
        assert Users(s', id) == Users(s1, id) - {c};
      }
    }
  }

  /** No event changes the timeout of an authorization that there is. */
  lemma StepKeepsTimeout(s: State, e: Event, id: AuthId)
    requires Legal(s, e) && id in s.auths && id in Step(s, e).auths
    ensures Step(s, e).auths[id].timeout == s.auths[id].timeout
  {
  }

  /** Revoking an authorization closes down exactly its clients that are not retained. */
  lemma RevokeCloses(s: State, id: AuthId, retained: set<ClientId>)
    requires id in s.auths
    ensures var s' := Step(s, ERevoke(id, retained));
      && (forall c :: c in s'.clients <==> c in s.clients && (s.clients[c].authId != Some(id) || c in retained))
      && (forall c | c in s'.clients :: s'.clients[c] == s.clients[c])
      && s'.auths.Keys == s.auths.Keys - {id} && forall a | a in s'.auths :: s'.auths[a] == s.auths[a]
  {
  }

  /** An authorization in use never expires: however long the run, it is there as long as one client of it is. */
  lemma {:induction false} InUseSurvives(s: State, run: seq<Event>, c: ClientId, id: AuthId)
    requires Inv(s) && LegalRun(s, run) && id in s.auths && Uses(s, c, id)
    requires forall i | 0 <= i < |run| :: !Ends(run[i], c, id)
    ensures id in Run(s, run).auths && Uses(Run(s, run), c, id)
    decreases |run|
  {
    hide Inv, Legal, Step, Uses, Ends;
    if run != [] {
      StepInv(s, run[0]);
      StepKeepsUser(s, run[0], c, id);
      InUseSurvives(Step(s, run[0]), run[1..], c, id);
    }
  }

  /** One that is not used expires when its timer has run for exactly its timeout, and not before. */
  lemma ExpiresOnTime(s: State, id: AuthId, retained: set<ClientId>)
    requires Inv(s) && id in s.auths && s.auths[id].timer.Armed?
    ensures Users(s, id) == {}
    ensures var a := s.auths[id];
            if id in Expired(s, id, retained).auths then a.waited + a.timer.delay < MILLI_PER_SECOND * a.timeout
            else a.waited + a.timer.delay == MILLI_PER_SECOND * a.timeout
  {
    assert AuthInv(s.auths[id], |Users(s, id)|);
  }

  /** An authorization that nobody uses is waiting to expire, unless it was to last for ever. */
  lemma UnusedExpires(s: State, id: AuthId)
    requires Inv(s) && id in s.auths && Users(s, id) == {}
    ensures s.auths[id].timer.Armed? || s.auths[id].timeout == 0
  {
    assert AuthInv(s.auths[id], |Users(s, id)|);
  }

  // The callbacks, as they change the records.

  class SecurityServer {
    var auths: map<AuthId, Auth>
    var clients: map<ClientId, ClientState>

    ghost function S(): State
      reads this
    {
      State(auths, clients)
    }

    constructor ()
      ensures S() == State(map[], map[])
    {
      auths, clients := map[], map[];
    }

    /** SecurityComputeAuthorizationTimeout */
    method ComputeAuthorizationTimeout(id: AuthId, seconds: Card32) returns (delay: Card32)
      requires id in auths
      modifies this`auths
      ensures delay == ComputeTimeout(seconds).0
      ensures auths == old(auths)[id := old(auths)[id].(secondsRemaining := ComputeTimeout(seconds).1)]
    {
      if seconds > MAX_SECS {
        auths := auths[id := auths[id].(secondsRemaining := seconds - MAX_SECS)];
        return MAX_SECS * MILLI_PER_SECOND;
      } else {
        auths := auths[id := auths[id].(secondsRemaining := 0)];
        return seconds * MILLI_PER_SECOND;
      }
    }

    /** SecurityStartAuthorizationTimer */
    method StartAuthorizationTimer(id: AuthId)
      requires id in auths
      modifies this`auths
      ensures auths == old(auths)[id := StartTimer(old(auths)[id])]
    {
      var delay := ComputeAuthorizationTimeout(id, auths[id].timeout);
      auths := auths[id := auths[id].(timer := SetTimer(delay), waited := 0)];
    }

    /** SecurityClientState, for a client that is running */
    method ClientIsRunning(c: ClientId, authId: AuthId)
      requires c in clients
      modifies this
      ensures S() == ClientRunning(old(S()), c, authId)
      // a client that was not live becomes one more user, and while there is a user the timer is not set
      ensures !old(clients)[c].live && old(Inv(S())) ==>
                Inv(S()) &&
                forall id | id in auths ::
                  Users(S(), id) == old(Users(S(), id)) + if id == authId then {c} else {}
      ensures old(Inv(S())) && !old(clients)[c].live && authId in auths ==> !auths[authId].timer.Armed?
      // the client has the authorization, and is live if that exists; nothing else changes but one count and its timer
      ensures clients == old(clients)[c := ClientState(Some(authId), old(clients)[c].live || authId in old(auths))]
      ensures auths.Keys == old(auths).Keys
      ensures forall a | a in auths ::
                if a != authId then auths[a] == old(auths)[a]
                else auths[a].refcnt == old(auths)[a].refcnt + 1 && auths[a].timeout == old(auths)[a].timeout
    {
      hide Inv, Users;
      ghost var s0 := S();
      if Inv(s0) && !s0.clients[c].live {
        RunningInv(s0, c, authId);
        RunningUsers(s0, c, authId);
      }
      clients := clients[c := clients[c].(authId := Some(authId))];
      if authId in auths {
        auths := auths[authId := auths[authId].(refcnt := auths[authId].refcnt + 1)];
        clients := clients[c := clients[c].(live := true)];
        if auths[authId].refcnt == 1 && auths[authId].timer != NoTimer {
          // TimerCancel
          auths := auths[authId := auths[authId].(timer := Idle)];
        }
      }
    }

    /** SecurityClientState, for a client that has gone or is retained */
    method ClientIsLeaving(c: ClientId)
      requires c in clients
      modifies this
      ensures S() == ClientLeaves(old(S()), c)
      // the client uses nothing any more, and the timer of what nobody uses now is set, unless it is to last for ever
      ensures old(Inv(S())) ==>
                Inv(S()) && forall id | id in auths :: Users(S(), id) == old(Users(S(), id)) - {c}
      ensures old(Inv(S())) ==>
                forall id | id in auths && Users(S(), id) == {} :: auths[id].timer.Armed? || auths[id].timeout == 0
      // a live client of an authorization that exists is live no more; nothing changes but that, one count and its timer
      ensures var st := old(clients)[c];
        var uses := st.live && st.authId.Some? && st.authId.value in old(auths);
        && clients == old(clients)[c := if uses then st.(live := false) else st]
        && auths.Keys == old(auths).Keys
        && forall a | a in auths ::
             if !uses || a != st.authId.value then auths[a] == old(auths)[a]
             else auths[a].timeout == old(auths)[a].timeout
                  && (old(auths)[a].refcnt > 0 ==> auths[a].refcnt == old(auths)[a].refcnt - 1)
                  && (auths[a].refcnt > 0 ==> auths[a].timer == old(auths)[a].timer)
    {
      hide Inv, Users;
      ghost var s0 := S();
      if Inv(s0) {
        LeavesInv(s0, c);
        LeavesUsers(s0, c);
      }
      var authId := clients[c].authId;
      if authId.Some? && authId.value in auths && clients[c].live {
        var a := auths[authId.value];
        var refcnt := if a.refcnt == 0 then 0xFFFF_FFFF else a.refcnt - 1;
        auths := auths[authId.value := a.(refcnt := refcnt)];
        clients := clients[c := clients[c].(live := false)];
        if auths[authId.value].refcnt == 0 {
          StartAuthorizationTimer(authId.value);
        }
      }
    }

    /** SecurityDeleteAuthorization: the authorization is no longer found by its clients as they are closed down. */
    method DeleteAuthorization(id: AuthId, retained: set<ClientId>, maxClients: nat)
      requires forall c | c in clients :: c < maxClients
      modifies this
      ensures S() == Delete(old(S()), id, retained)
      // closed down are the clients of the authorization that are not retained, and no others
      ensures forall c :: c in clients <==> c in old(clients) && (old(clients)[c].authId != Some(id) || c in retained)
      ensures forall c | c in clients :: clients[c] == old(clients)[c]
      ensures forall a :: a in auths <==> a in old(auths) && a != id
      ensures forall a | a in auths :: auths[a] == old(auths)[a]
    {
      auths := auths - {id};
      for i := 0 to maxClients
        invariant auths == old(auths) - {id}
        invariant forall c :: c in clients <==>
                    c in old(clients) && (c >= i || old(clients)[c].authId != Some(id) || c in retained)
        invariant forall c | c in clients :: clients[c] == old(clients)[c]
      {
        if i in clients && clients[i].authId == Some(id) {
          ClientIsLeaving(i);
          if i !in retained {
            clients := clients - {i};
          }
        }
      }
    }

    /** SecurityAuthorizationExpired */
    method AuthorizationExpired(id: AuthId, retained: set<ClientId>, maxClients: nat)
      requires id in auths && auths[id].timer.Armed?
      requires forall c | c in clients :: c < maxClients
      modifies this
      ensures S() == Expired(old(S()), id, retained)
      // while seconds remain the timer is set for as many of them as fit, and nobody notices
      ensures old(auths)[id].secondsRemaining > 0 ==>
                id in auths && clients == old(clients) && auths[id].timer.Armed? &&
                auths[id].timer.delay + MILLI_PER_SECOND * auths[id].secondsRemaining
                == MILLI_PER_SECOND * old(auths)[id].secondsRemaining &&
                auths == old(auths)[id := auths[id]] && auths[id].refcnt == old(auths)[id].refcnt
      // when none remain the authorization is gone, with its clients that are not retained, and no others
      ensures old(auths)[id].secondsRemaining == 0 ==>
                && id !in auths
                && (forall c :: c in clients <==>
                      c in old(clients) && (old(clients)[c].authId != Some(id) || c in retained))
                && (forall c | c in clients :: clients[c] == old(clients)[c])
                && auths.Keys == old(auths).Keys - {id} && forall a | a in auths :: auths[a] == old(auths)[a]
    {
      if auths[id].secondsRemaining > 0 {
        var waited := auths[id].waited + auths[id].timer.delay;
        var delay := ComputeAuthorizationTimeout(id, auths[id].secondsRemaining);
        auths := auths[id := auths[id].(timer := SetTimer(delay), waited := waited)];
      } else {
        DeleteAuthorization(id, retained, maxClients);
      }
    }

    /** ProcSecurityGenerateAuthorization, once the authorization has an identifier */
    method GenerateAuthorization(id: AuthId, timeout: Card32)
      requires id !in auths
      modifies this`auths
      ensures S() == Generate(old(S()), id, timeout)
      // it has no users and the timeout asked for, and unless that is 0 it is waiting for the whole of it
      ensures auths == old(auths)[id := auths[id]] && auths[id].timeout == timeout && auths[id].refcnt == 0
      ensures timeout == 0 ==> !auths[id].timer.Armed?
      ensures timeout > 0 ==>
                auths[id].timer.Armed? &&
                auths[id].timer.delay + MILLI_PER_SECOND * auths[id].secondsRemaining == MILLI_PER_SECOND * timeout
    {
      auths := auths[id := Auth(timeout, 0, 0, NoTimer, 0)];
      if timeout != 0 {
        StartAuthorizationTimer(id);
      }
    }
  }
}
