/**
 Every user's account over the one lock table: a request joins the line of its
 user's key, the promise machine decides when it runs, and nothing else keeps two
 requests of one user apart.
 */
module CredentialLocks {
  import opened Wrappers
  import L = AsyncLock
  import C = Credentials

  /** withUserCredentialsLock's key. */
  function KeyOf(user: string): string {
    "user-credentials:" + user
  }

  type Turn = (string, nat)

  /** turn is the call of withLock that each request made. */
  datatype World = World(accounts: map<string, C.Account>, lock: L.State, turn: map<Turn, nat>)

  datatype Event =
    | Begins(user: string, r: nat, request: C.Request)
    | Joins(user: string, r: nat)
    | Enters(user: string, r: nat)
    | Moves(user: string, r: nat, fate: C.Fate, result: L.Outcome)
    | Elsewhere(user: string, change: C.Change)
    | Runtime(event: L.Event)

  const GATE := L.OnSettled

  /** Settlements and clean-ups, and the calls made under other keys. */
  predicate NotOurs(w: World, e: L.Event) {
    match e
    case Arrive(key) => forall u | u in w.accounts :: key != KeyOf(u)
    case Start(i) => i < |w.lock.calls| && forall u | u in w.accounts :: w.lock.calls[i].key != KeyOf(u)
    case Finish(i, _) => i < |w.lock.calls| && forall u | u in w.accounts :: w.lock.calls[i].key != KeyOf(u)
    case Settle(_) => true
    case Cleanup(_) => true
  }

  /** The request waits for the lock and has not asked for it yet. */
  predicate MayJoin(w: World, user: string, r: nat) {
    && user in w.accounts && r in w.accounts[user].requests && (user, r) !in w.turn
    && C.Queued(w.accounts[user].requests[r])
  }

  /** The promise machine is ready to run the request. The holder is not asked. */
  predicate MayEnter(w: World, user: string, r: nat) {
    && user in w.accounts && (user, r) in w.turn
    && L.Enabled(GATE, w.lock, L.Start(w.turn[(user, r)]))
  }

  predicate Enabled(w: World, e: Event) {
    match e
    case Begins(user, r, q) => user in w.accounts && C.Enabled(w.accounts[user], C.Begin(r, q))
    case Joins(user, r) => MayJoin(w, user, r)
    case Enters(user, r) => MayEnter(w, user, r)
    case Moves(user, r, fate, _) => user in w.accounts && C.Enabled(w.accounts[user], C.Advance(r, fate))
    case Elsewhere(user, change) => user in w.accounts
    case Runtime(e) => L.Enabled(GATE, w.lock, e) && NotOurs(w, e)
  }

  /** What running the body does to the account, whoever holds it. */
  function Entered(a: C.Account, r: nat): C.Account {
    if r in a.requests && C.Queued(a.requests[r])
    then C.Account(a.rows, Some(r), a.requests[r := C.Entered(a.requests[r])])
    else a
  }

  /** The body that is about to return, if any: its call settles with it. */
  function Returned(w: World, user: string, r: nat, result: L.Outcome): L.State {
    if user in w.accounts && r in w.accounts[user].requests && w.accounts[user].requests[r].Leaving?
       && (user, r) in w.turn && L.Enabled(GATE, w.lock, L.Finish(w.turn[(user, r)], result))
    then L.Step(GATE, w.lock, L.Finish(w.turn[(user, r)], result))
    else w.lock
  }

  function Step(w: World, e: Event): World
    requires Enabled(w, e)
  {
    match e
    case Begins(user, r, q) =>
      w.(accounts := w.accounts[user := C.Step(w.accounts[user], C.Begin(r, q))])
    case Joins(user, r) =>
      w.(lock := L.Step(GATE, w.lock, L.Arrive(KeyOf(user))), turn := w.turn[(user, r) := |w.lock.calls|])
    case Enters(user, r) =>
      w.(lock := L.Step(GATE, w.lock, L.Start(w.turn[(user, r)])),
         accounts := w.accounts[user := Entered(w.accounts[user], r)])
    case Moves(user, r, fate, result) =>
      w.(lock := Returned(w, user, r, result),
         accounts := w.accounts[user := C.Step(w.accounts[user], C.Advance(r, fate))])
    case Elsewhere(user, change) =>
      w.(accounts := w.accounts[user := C.Step(w.accounts[user], C.Elsewhere(change))])
    case Runtime(e) => w.(lock := L.Step(GATE, w.lock, e))
  }

  function After(born: map<string, C.Account>, run: seq<Event>): Option<World> {
    if run == [] then Some(World(born, L.EMPTY, map[]))
    else
      match After(born, run[..|run| - 1])
      case None => None
      case Some(w) => if Enabled(w, run[|run| - 1]) then Some(Step(w, run[|run| - 1])) else None
  }

  ghost predicate AllBorn(born: map<string, C.Account>) {
    forall u | u in born :: exists password, signedIn :: born[u] == C.Born(password, signedIn)
  }

  // ---------------------------------------------------------------------
  // The request and its call go together
  // ---------------------------------------------------------------------

  /** Where a request is, when its call is in this phase. */
  predicate Matches(phase: L.Phase, q: C.Request) {
    match phase
    case Waiting => C.Queued(q)
    case Running => C.InLock(q)
    case _ => q.Done?
  }

  /** A request and its call, one of the user's key, are at the same point. */
  ghost predicate TurnOk(w: World, t: Turn)
    requires t in w.turn
  {
    && t.0 in w.accounts && t.1 in w.accounts[t.0].requests && w.turn[t] < |w.lock.calls|
    && w.lock.calls[w.turn[t]].key == KeyOf(t.0)
    && Matches(w.lock.calls[w.turn[t]].phase, w.accounts[t.0].requests[t.1])
  }

  ghost predicate TurnsOk(w: World) {
    && (forall t | t in w.turn :: TurnOk(w, t))
    && (forall t, t' | t in w.turn && t' in w.turn && w.turn[t] == w.turn[t'] :: t == t')
  }

  /** Only requests with a call are inside. */
  ghost predicate InsideOk(w: World) {
    forall u, r | u in w.accounts && r in w.accounts[u].requests && C.InLock(w.accounts[u].requests[r]) ::
      (u, r) in w.turn
  }

  ghost predicate Inv(w: World) {
    && L.Inv(GATE, w.lock) && TurnsOk(w) && InsideOk(w)
    && forall u | u in w.accounts :: C.LockOk(w.accounts[u])
  }

  lemma KeysDiffer(u: string, v: string)
    requires KeyOf(u) == KeyOf(v)
    ensures u == v
  {
    assert KeyOf(u)[17..] == u && KeyOf(v)[17..] == v;
  }

  /** Whoever holds an account is running under its key. */
  lemma HolderIsRunning(w: World, user: string, h: nat)
    requires Inv(w) && user in w.accounts && w.accounts[user].holder == Some(h)
    ensures (user, h) in w.turn && w.lock.calls[w.turn[(user, h)]].phase.Running?
    ensures L.Inside(w.lock.calls, KeyOf(user))
  {
    var a := w.accounts[user];
    assert C.LockOk(a) && C.InLock(a.requests[h]);
    assert (user, h) in w.turn;
    RunsInside(w, user, h);
  }

  lemma RunsInside(w: World, user: string, h: nat)
    requires TurnsOk(w) && (user, h) in w.turn && TurnOk(w, (user, h)) && C.InLock(w.accounts[user].requests[h])
    ensures w.lock.calls[w.turn[(user, h)]].phase.Running? && L.Inside(w.lock.calls, KeyOf(user))
  {
    var i := w.turn[(user, h)];
    assert w.lock.calls[i].key == KeyOf(user) && w.lock.calls[i].phase.Running?;
  }

  /** When the promise machine would run a request, the request is waiting and
      nobody of its user is inside: the lock is the holder. */
  lemma LockGrantsAlone(w: World, user: string, r: nat)
    requires Inv(w) && MayEnter(w, user, r)
    ensures C.Enabled(w.accounts[user], C.Acquire(r))
  {
    L.StartFindsNobody(GATE, w.lock, w.turn[(user, r)]);
    if w.accounts[user].holder.Some? {
      HolderIsRunning(w, user, w.accounts[user].holder.value);
    }
  }

  /** The body that returns is the one the promise machine is running. */
  lemma ReturnSettles(w: World, user: string, r: nat, result: L.Outcome)
    requires Inv(w) && user in w.accounts && r in w.accounts[user].requests
    requires w.accounts[user].requests[r].Leaving?
    ensures (user, r) in w.turn && L.Enabled(GATE, w.lock, L.Finish(w.turn[(user, r)], result))
    ensures Returned(w, user, r, result) == L.Step(GATE, w.lock, L.Finish(w.turn[(user, r)], result))
  {
  }

  /** What an event does to one account: an event of that account, or nothing. */
  function EventOf(user: string, e: Event): Option<C.Event> {
    match e
    case Begins(u, r, q) => if u == user then Some(C.Begin(r, q)) else None
    case Joins(_, _) => None
    case Enters(u, r) => if u == user then Some(C.Acquire(r)) else None
    case Moves(u, r, fate, _) => if u == user then Some(C.Advance(r, fate)) else None
    case Elsewhere(u, change) => if u == user then Some(C.Elsewhere(change)) else None
    case Runtime(_) => None
  }

  /** The composed step is a step of the account's own machine, which does ask
      for the holder, and leaves every other account alone. */
  lemma StepProjects(w: World, e: Event, user: string)
    requires Inv(w) && Enabled(w, e) && user in w.accounts
    ensures user in Step(w, e).accounts && Step(w, e).accounts.Keys == w.accounts.Keys
    ensures match EventOf(user, e)
            case None => Step(w, e).accounts[user] == w.accounts[user]
            case Some(own) =>
              C.Enabled(w.accounts[user], own) && Step(w, e).accounts[user] == C.Step(w.accounts[user], own)
  {
    if e.Enters? { LockGrantsAlone(w, e.user, e.r); }
  }

  /** And a step of the promise machine, or nothing. */
  lemma StepOfLock(w: World, e: Event) returns (own: Option<L.Event>)
    requires Inv(w) && Enabled(w, e)
    ensures own.None? ==> Step(w, e).lock == w.lock
    ensures own.Some? ==> L.Enabled(GATE, w.lock, own.value) && Step(w, e).lock == L.Step(GATE, w.lock, own.value)
    ensures own == match e
                   case Begins(_, _, _) => None
                   case Joins(user, _) => Some(L.Arrive(KeyOf(user)))
                   case Enters(user, r) => Some(L.Start(w.turn[(user, r)]))
                   case Moves(user, r, _, result) =>
                     if w.accounts[user].requests[r].Leaving? then Some(L.Finish(w.turn[(user, r)], result)) else None
                   case Elsewhere(_, _) => None
                   case Runtime(le) => Some(le)
  {
    if e.Moves? && w.accounts[e.user].requests[e.r].Leaving? {
      ReturnSettles(w, e.user, e.r, e.result);
    }
    own := match e
      case Begins(_, _, _) => None
      case Joins(user, _) => Some(L.Arrive(KeyOf(user)))
      case Enters(user, r) => Some(L.Start(w.turn[(user, r)]))
      case Moves(user, r, _, result) =>
        if w.accounts[user].requests[r].Leaving? then Some(L.Finish(w.turn[(user, r)], result)) else None
      case Elsewhere(_, _) => None
      case Runtime(le) => Some(le);
  }

  /** What happens to a request that has a call. */
  datatype Motion = Stays | EntersNow | WorksOn | Returns

  function MotionOf(w: World, e: Event, t: Turn): Motion {
    match e
    case Enters(user, r) => if (user, r) == t then EntersNow else Stays
    case Moves(user, r, _, _) =>
      if (user, r) != t then Stays
      else if user in w.accounts && r in w.accounts[user].requests && w.accounts[user].requests[r].Leaving? then Returns
      else WorksOn
    case _ => Stays
  }

  lemma CallMoves(w: World, e: Event, t: Turn)
    requires Inv(w) && Enabled(w, e) && t in w.turn
    ensures w.turn[t] < |Step(w, e).lock.calls|
    ensures var was, now := w.lock.calls[w.turn[t]], Step(w, e).lock.calls[w.turn[t]];
            && now.key == was.key
            && match MotionOf(w, e, t)
               case EntersNow => now.phase.Running?
               case Returns => L.Ended(now.phase)
               case _ => now.phase == was.phase || (L.Ended(now.phase) && L.Ended(was.phase))
  {
    var own := StepOfLock(w, e);
    if own.Some? {
      L.CallsContinue(GATE, w.lock, own.value, w.turn[t]);
      L.PhaseAfter(GATE, w.lock, own.value, w.turn[t]);
    }
  }

  /** A request with a call waits, is inside, or is done: it is past its token. */
  lemma HasItsTurn(w: World, t: Turn)
    requires Inv(w) && t in w.turn
    ensures t.0 in w.accounts && t.1 in w.accounts[t.0].requests && !w.accounts[t.0].requests[t.1].ResetChecked?
  {
    assert Matches(w.lock.calls[w.turn[t]].phase, w.accounts[t.0].requests[t.1]);
  }

  lemma Advances(a: C.Account, r: nat, fate: C.Fate)
    requires C.Enabled(a, C.Advance(r, fate)) && !a.requests[r].ResetChecked?
    ensures r in C.Step(a, C.Advance(r, fate)).requests
    ensures var q, q' := a.requests[r], C.Step(a, C.Advance(r, fate)).requests[r];
            C.InLock(q) && if q.Leaving? then q'.Done? else C.InLock(q')
  {
    C.CallMoves(a.rows, r, a.requests[r], fate);
  }

  /** The request of t after an event that does not move it. */
  lemma RequestStays(w: World, e: Event, t: Turn)
    requires Inv(w) && Enabled(w, e) && t in w.turn && MotionOf(w, e, t).Stays?
    ensures t.0 in w.accounts && t.1 in w.accounts[t.0].requests
    ensures t.0 in Step(w, e).accounts && t.1 in Step(w, e).accounts[t.0].requests
    ensures Step(w, e).accounts[t.0].requests[t.1] == w.accounts[t.0].requests[t.1]
  {
    HasItsTurn(w, t);
    StepProjects(w, e, t.0);
    var own := EventOf(t.0, e);
    if own.Some? { OthersStay(w.accounts[t.0], own.value, t.1); }
  }

  lemma OthersStay(a: C.Account, e: C.Event, r: nat)
    requires C.Enabled(a, e) && r in a.requests && (e.Elsewhere? || e.r != r)
    ensures r in C.Step(a, e).requests && C.Step(a, e).requests[r] == a.requests[r]
  {
  }

  lemma RequestEnters(w: World, e: Event, t: Turn)
    requires Inv(w) && Enabled(w, e) && t in w.turn && e == Enters(t.0, t.1)
    ensures t.0 in Step(w, e).accounts && t.1 in Step(w, e).accounts[t.0].requests
    ensures C.InLock(Step(w, e).accounts[t.0].requests[t.1])
  {
    StepProjects(w, e, t.0);
  }

  lemma RequestWorks(w: World, e: Event, t: Turn)
    requires Inv(w) && Enabled(w, e) && t in w.turn && e.Moves? && (e.user, e.r) == t
    ensures t.0 in w.accounts && t.1 in w.accounts[t.0].requests
    ensures t.0 in Step(w, e).accounts && t.1 in Step(w, e).accounts[t.0].requests
    ensures var was, now := w.accounts[t.0].requests[t.1], Step(w, e).accounts[t.0].requests[t.1];
            C.InLock(was) && if was.Leaving? then now.Done? else C.InLock(now)
  {
    HasItsTurn(w, t);
    StepProjects(w, e, t.0);
    Advances(w.accounts[t.0], t.1, e.fate);
  }

  lemma RequestMoves(w: World, e: Event, t: Turn)
    requires Inv(w) && Enabled(w, e) && t in w.turn
    ensures t.0 in w.accounts && t.1 in w.accounts[t.0].requests
    ensures t.0 in Step(w, e).accounts && t.1 in Step(w, e).accounts[t.0].requests
    ensures var was, now := w.accounts[t.0].requests[t.1], Step(w, e).accounts[t.0].requests[t.1];
            match MotionOf(w, e, t)
            case Stays => now == was
            case EntersNow => C.InLock(now)
            case WorksOn => C.InLock(was) && C.InLock(now)
            case Returns => now.Done?
  {
    HasItsTurn(w, t);
    match MotionOf(w, e, t)
    case Stays => RequestStays(w, e, t);
    case EntersNow => RequestEnters(w, e, t);
    case WorksOn => RequestWorks(w, e, t);
    case Returns => RequestWorks(w, e, t);
  }

  lemma StillMatches(motion: Motion, was: L.Phase, now: L.Phase, q: C.Request, q': C.Request)
    requires Matches(was, q)
    requires match motion
             case EntersNow => now.Running? && C.InLock(q')
             case Returns => L.Ended(now) && q'.Done?
             case Stays => (now == was || (L.Ended(now) && L.Ended(was))) && q' == q
             case WorksOn => (now == was || (L.Ended(now) && L.Ended(was))) && C.InLock(q) && C.InLock(q')
    ensures Matches(now, q')
  {
  }

  /** Each request and its call move together. */
  lemma TurnContinues(w: World, e: Event, t: Turn)
    requires Inv(w) && Enabled(w, e) && t in w.turn
    ensures t in Step(w, e).turn && Step(w, e).turn[t] == w.turn[t] && TurnOk(Step(w, e), t)
  {
    var w' := Step(w, e);
    CallMoves(w, e, t);
    RequestMoves(w, e, t);
    assert TurnOk(w, t);
    StillMatches(MotionOf(w, e, t), w.lock.calls[w.turn[t]].phase, w'.lock.calls[w.turn[t]].phase,
                 w.accounts[t.0].requests[t.1], w'.accounts[t.0].requests[t.1]);
  }

  lemma NewTurnOk(w: World, user: string, r: nat)
    requires Inv(w) && MayJoin(w, user, r)
    ensures (user, r) in Step(w, Joins(user, r)).turn && TurnOk(Step(w, Joins(user, r)), (user, r))
  {
  }

  lemma StepKeepsTurns(w: World, e: Event)
    requires Inv(w) && Enabled(w, e)
    ensures TurnsOk(Step(w, e))
  {
    forall t | t in Step(w, e).turn ensures TurnOk(Step(w, e), t) {
      if t in w.turn { TurnContinues(w, e, t); } else { NewTurnOk(w, e.user, e.r); }
    }
    TurnsStayApart(w, e);
  }

  /** No two requests share a call. */
  lemma TurnsStayApart(w: World, e: Event)
    requires Inv(w) && Enabled(w, e)
    ensures forall t, t' | t in Step(w, e).turn && t' in Step(w, e).turn
                           && Step(w, e).turn[t] == Step(w, e).turn[t'] :: t == t'
  {
    assert forall t | t in w.turn :: TurnOk(w, t);
  }

  /** A request inside after an event was inside before it, or has just entered. */
  lemma WasInside(w: World, e: Event, u: string, r: nat)
    requires Inv(w) && Enabled(w, e) && u in w.accounts && u in Step(w, e).accounts
    requires r in Step(w, e).accounts[u].requests && C.InLock(Step(w, e).accounts[u].requests[r])
    ensures e == Enters(u, r) || (r in w.accounts[u].requests && C.InLock(w.accounts[u].requests[r]))
  {
    StepProjects(w, e, u);
    var own := EventOf(u, e);
    if own.Some? { InsideBefore(w.accounts[u], own.value, r); }
  }

  lemma InsideBefore(a: C.Account, e: C.Event, r: nat)
    requires C.Enabled(a, e) && r in C.Step(a, e).requests && C.InLock(C.Step(a, e).requests[r])
    ensures e == C.Acquire(r) || (r in a.requests && C.InLock(a.requests[r]))
  {
    if e.Advance? { C.CallMoves(a.rows, e.r, a.requests[e.r], e.fate); }
  }

  lemma StepKeepsInside(w: World, e: Event)
    requires Inv(w) && Enabled(w, e)
    ensures InsideOk(Step(w, e))
  {
    var w' := Step(w, e);
    assert w.turn.Keys <= w'.turn.Keys;
    forall u, r | u in w'.accounts && r in w'.accounts[u].requests && C.InLock(w'.accounts[u].requests[r])
      ensures (u, r) in w'.turn
    {
      WasInside(w, e, u, r);
    }
  }

  lemma StepKeepsInv(w: World, e: Event)
    requires Inv(w) && Enabled(w, e)
    ensures Inv(Step(w, e))
  {
    StepKeepsTurns(w, e);
    StepKeepsInside(w, e);
    var own := StepOfLock(w, e);
    if own.Some? { L.StepKeepsInv(GATE, w.lock, own.value); }
    forall u | u in Step(w, e).accounts ensures C.LockOk(Step(w, e).accounts[u]) {
      StepProjects(w, e, u);
      var mine := EventOf(u, e);
      if mine.Some? { C.StepKeepsLock(w.accounts[u], mine.value); }
    }
  }

  lemma {:induction false} RunKeepsInv(born: map<string, C.Account>, run: seq<Event>, w: World)
    requires AllBorn(born) && After(born, run) == Some(w)
    ensures Inv(w)
  {
    if run != [] {
      var before := After(born, run[..|run| - 1]).value;
      RunKeepsInv(born, run[..|run| - 1], before);
      StepKeepsInv(before, run[|run| - 1]);
    }
  }

  // ---------------------------------------------------------------------
  // The accounts under the lock
  // ---------------------------------------------------------------------

  function EventsOf(user: string, run: seq<Event>): seq<C.Event> {
    if run == [] then []
    else
      var own := EventOf(user, run[|run| - 1]);
      EventsOf(user, run[..|run| - 1]) + if own.Some? then [own.value] else []
  }

  /** Seen from one account, every run under the lock is a run of the machine that
      asks for the holder, made of the events of that account alone. */
  lemma {:induction false} UsersDoNotInterfere(born: map<string, C.Account>, run: seq<Event>, w: World, user: string)
    requires AllBorn(born) && user in born && After(born, run) == Some(w)
    ensures user in w.accounts && C.After(born[user], EventsOf(user, run)) == Some(w.accounts[user])
  {
    if run != [] {
      var n := |run| - 1;
      var before := After(born, run[..n]).value;
      UsersDoNotInterfere(born, run[..n], before, user);
      RunKeepsInv(born, run[..n], before);
      StepProjects(before, run[n], user);
      OwnEvents(born[user], EventsOf(user, run[..n]), EventOf(user, run[n]), before.accounts[user], w.accounts[user]);
    }
  }

  lemma OwnEvents(born: C.Account, events: seq<C.Event>, own: Option<C.Event>, before: C.Account, after: C.Account)
    requires C.After(born, events) == Some(before)
    requires if own.None? then after == before else C.Enabled(before, own.value) && after == C.Step(before, own.value)
    ensures C.After(born, events + if own.Some? then [own.value] else []) == Some(after)
  {
    if own.Some? {
      assert (events + [own.value])[..|events|] == events;
    } else {
      assert events + [] == events;
    }
  }

  /** A request holds its account exactly while its call under the user's key is
      the one that runs. */
  lemma HolderIsTheRunningCall(born: map<string, C.Account>, run: seq<Event>, w: World, user: string, r: nat)
    requires AllBorn(born) && After(born, run) == Some(w) && user in w.accounts
    ensures w.accounts[user].holder == Some(r)
       <==> (user, r) in w.turn && w.turn[(user, r)] < |w.lock.calls|
            && w.lock.calls[w.turn[(user, r)]].phase.Running?
  {
    RunKeepsInv(born, run, w);
    if w.accounts[user].holder == Some(r) {
      HolderIsRunning(w, user, r);
    }
  }

  /** The user an event is about, when it is about one. */
  function UserOf(e: Event): Option<string> {
    match e
    case Begins(user, _, _) => Some(user)
    case Joins(user, _) => Some(user)
    case Enters(user, _) => Some(user)
    case Moves(user, _, _, _) => Some(user)
    case Elsewhere(user, _) => Some(user)
    case Runtime(_) => None
  }

  /** A call under one user's key never counts for another's: whatever the others
      do, and whatever the runtime settles, a user's line and whether somebody is
      inside stay as they are. */
  lemma OthersKeepTheLine(w: World, e: Event, user: string)
    requires Inv(w) && Enabled(w, e) && user in w.accounts && UserOf(e) != Some(user)
    ensures L.Abs(Step(w, e).lock, KeyOf(user)) == L.Abs(w.lock, KeyOf(user))
  {
    var own := StepOfLock(w, e);
    if own.Some? {
      L.RefinesFifoMutex(GATE, w.lock, own.value, KeyOf(user));
      if UserOf(e).Some? && KeyOf(UserOf(e).value) == KeyOf(user) {
        KeysDiffer(UserOf(e).value, user);
      }
      assert L.ActionOf(w.lock, own.value, KeyOf(user)) == L.Nothing;
    }
  }

  /** No stale credential in any account of any run, with the promise chain and
      nothing else to keep requests apart. */
  lemma NoStaleCredentialAnywhere(born: map<string, C.Account>, run: seq<Event>, w: World, user: string)
    requires AllBorn(born) && After(born, run) == Some(w) && user in born
    ensures user in w.accounts
    ensures !C.Wiping(C.Inside(w.accounts[user])) ==>
              var rows := w.accounts[user].rows;
              && (forall id | id in rows.sessions :: C.Current(rows, rows.sessions[id]))
              && (forall id | id in rows.devices :: C.Current(rows, rows.devices[id]))
              && (forall id | id in rows.logins :: C.Current(rows, rows.logins[id].from))
  {
    UsersDoNotInterfere(born, run, w, user);
    var password, signedIn :| born[user] == C.Born(password, signedIn);
    if !C.Wiping(C.Inside(w.accounts[user])) {
      C.NoStaleCredential(password, signedIn, EventsOf(user, run), w.accounts[user]);
    }
  }

  /** What QuotedOnce says of one account, of every account of every run. */
  lemma QuotedOnceAnywhere(born: map<string, C.Account>, run: seq<Event>, w: World, user: string,
                           i: nat, j: nat, quoted: string) returns (k: nat)
    requires AllBorn(born) && After(born, run) == Some(w) && user in born && user in w.accounts
    requires i < j < |w.accounts[user].rows.commits|
    requires w.accounts[user].rows.commits[i].cause == C.ByChange(Some(quoted))
    requires w.accounts[user].rows.commits[j].cause == C.ByChange(Some(quoted))
    ensures i <= k < j
    ensures var after := w.accounts[user].rows.commits[k].after; after == Some(quoted) || after.None?
  {
    UsersDoNotInterfere(born, run, w, user);
    var password, signedIn :| born[user] == C.Born(password, signedIn);
    k := C.QuotedOnce(password, signedIn, EventsOf(user, run), w.accounts[user], i, j, quoted);
  }

  lemma ChangeIsAuthorisedAnywhere(born: map<string, C.Account>, run: seq<Event>, w: World, user: string, i: nat)
    requires AllBorn(born) && After(born, run) == Some(w) && user in born && user in w.accounts
    requires i < |w.accounts[user].rows.commits| && w.accounts[user].rows.commits[i].cause.ByChange?
    ensures var commit := w.accounts[user].rows.commits[i];
            commit.before.None? || commit.before == commit.cause.old_
  {
    UsersDoNotInterfere(born, run, w, user);
    var password, signedIn :| born[user] == C.Born(password, signedIn);
    C.ChangeIsAuthorised(password, signedIn, EventsOf(user, run), w.accounts[user], i);
  }

  lemma ResetTokenOnceAnywhere(born: map<string, C.Account>, run: seq<Event>, w: World, user: string,
                               i: nat, j: nat, token: C.Id)
    requires AllBorn(born) && After(born, run) == Some(w) && user in born && user in w.accounts
    requires i < |w.accounts[user].rows.commits| && w.accounts[user].rows.commits[i].cause == C.ByReset(token)
    requires j < |w.accounts[user].rows.commits| && w.accounts[user].rows.commits[j].cause == C.ByReset(token)
    ensures i == j
  {
    UsersDoNotInterfere(born, run, w, user);
    var password, signedIn :| born[user] == C.Born(password, signedIn);
    C.ResetTokenOnce(password, signedIn, EventsOf(user, run), w.accounts[user], i, j, token);
  }

  lemma LoginTokenOnceAnywhere(born: map<string, C.Account>, run: seq<Event>, w: World, user: string,
                               i: nat, j: nat, login: C.Id)
    requires AllBorn(born) && After(born, run) == Some(w) && user in born && user in w.accounts
    requires i < |w.accounts[user].rows.mints| && w.accounts[user].rows.mints[i].source == C.FromLogin(login)
    requires j < |w.accounts[user].rows.mints| && w.accounts[user].rows.mints[j].source == C.FromLogin(login)
    ensures i == j
  {
    UsersDoNotInterfere(born, run, w, user);
    var password, signedIn :| born[user] == C.Born(password, signedIn);
    C.LoginTokenOnce(password, signedIn, EventsOf(user, run), w.accounts[user], i, j, login);
  }

  // ---------------------------------------------------------------------
  // Nobody waits for nothing
  // ---------------------------------------------------------------------

  /** Every call under a user's key is a request's. */
  ghost predicate CallsOk(w: World) {
    forall i, u | 0 <= i < |w.lock.calls| && u in w.accounts && w.lock.calls[i].key == KeyOf(u) :: HasTurn(w, u, i)
  }

  ghost predicate HasTurn(w: World, user: string, i: nat) {
    exists r: nat :: (user, r) in w.turn && w.turn[(user, r)] == i
  }

  /** Calls keep their keys, and the one that arrives has the key it came with. */
  lemma KeysStay(s: L.State, e: L.Event)
    requires L.Enabled(GATE, s, e)
    ensures |L.Step(GATE, s, e).calls| == |s.calls| + if e.Arrive? then 1 else 0
    ensures forall i | 0 <= i < |s.calls| :: L.Step(GATE, s, e).calls[i].key == s.calls[i].key
    ensures e.Arrive? ==> L.Step(GATE, s, e).calls[|s.calls|].key == e.key
  {
  }

  lemma StepKeepsCalls(w: World, e: Event)
    requires Inv(w) && CallsOk(w) && Enabled(w, e)
    ensures CallsOk(Step(w, e))
  {
    var own := StepOfLock(w, e);
    var w' := Step(w, e);
    if own.Some? { KeysStay(w.lock, own.value); }
    forall i, u | 0 <= i < |w'.lock.calls| && u in w'.accounts && w'.lock.calls[i].key == KeyOf(u)
      ensures HasTurn(w', u, i)
    {
      if i < |w.lock.calls| {
        assert HasTurn(w, u, i);
        var r: nat :| (u, r) in w.turn && w.turn[(u, r)] == i;
        assert (u, r) in w'.turn && w'.turn[(u, r)] == i;
      } else {
        KeysDiffer(e.user, u);
        assert (u, e.r) in w'.turn && w'.turn[(u, e.r)] == i;
      }
    }
  }

  lemma {:induction false} RunKeepsCalls(born: map<string, C.Account>, run: seq<Event>, w: World)
    requires AllBorn(born) && After(born, run) == Some(w)
    ensures CallsOk(w)
  {
    if run != [] {
      var before := After(born, run[..|run| - 1]).value;
      RunKeepsCalls(born, run[..|run| - 1], before);
      RunKeepsInv(born, run[..|run| - 1], before);
      StepKeepsCalls(before, run[|run| - 1]);
    }
  }

  /** With nobody holding the account, nobody runs under its key. */
  lemma NobodyInside(w: World, user: string)
    requires Inv(w) && CallsOk(w) && user in w.accounts && w.accounts[user].holder.None?
    ensures !L.Inside(w.lock.calls, KeyOf(user))
  {
    if L.Inside(w.lock.calls, KeyOf(user)) {
      var i :| 0 <= i < |w.lock.calls| && w.lock.calls[i].key == KeyOf(user) && w.lock.calls[i].phase.Running?;
      assert HasTurn(w, user, i);
      var r: nat :| (user, r) in w.turn && w.turn[(user, r)] == i;
      RunningHolds(w, user, r, i);
    }
  }

  lemma RunningHolds(w: World, user: string, r: nat, i: nat)
    requires Inv(w) && (user, r) in w.turn && w.turn[(user, r)] == i
    ensures i < |w.lock.calls| && user in w.accounts
    ensures w.lock.calls[i].phase.Running? ==> w.accounts[user].holder == Some(r)
  {
    assert TurnOk(w, (user, r));
  }

  /** Whoever waits can ask for the lock, and then stands at the end of the line. */
  lemma WaitingJoins(w: World, user: string, r: nat)
    requires user in w.accounts && r in w.accounts[user].requests && (user, r) !in w.turn
    requires C.Queued(w.accounts[user].requests[r])
    ensures Enabled(w, Joins(user, r))
    ensures L.Line(Step(w, Joins(user, r)).lock.calls, KeyOf(user))
         == L.Line(w.lock.calls, KeyOf(user)) + [|w.lock.calls|]
  {
    var calls := Step(w, Joins(user, r)).lock.calls;
    assert calls[..|calls| - 1] == w.lock.calls;
  }

  /** In every run, while nobody holds an account, the oldest request in its line can
      get in: at once, or as soon as the promise before it has settled. */
  lemma OldestGetsIn(born: map<string, C.Account>, run: seq<Event>, w: World, user: string) returns (r: nat)
    requires AllBorn(born) && After(born, run) == Some(w) && user in w.accounts
    requires w.accounts[user].holder.None? && L.Line(w.lock.calls, KeyOf(user)) != []
    ensures (user, r) in w.turn && w.turn[(user, r)] == L.Line(w.lock.calls, KeyOf(user))[0]
    ensures || Enabled(w, Enters(user, r))
            || exists i: nat :: Enabled(w, Runtime(L.Settle(i)))
                                && Enabled(Step(w, Runtime(L.Settle(i))), Enters(user, r))
  {
    RunKeepsInv(born, run, w);
    RunKeepsCalls(born, run, w);
    NobodyInside(w, user);
    var head := L.Line(w.lock.calls, KeyOf(user))[0];
    L.HeadRuns(GATE, w.lock, KeyOf(user), head);
    assert HasTurn(w, user, head);
    r :| (user, r) in w.turn && w.turn[(user, r)] == head;
    if !Enabled(w, Enters(user, r)) {
      var i := w.lock.calls[head].prior.value;
      assert Enabled(w, Runtime(L.Settle(i))) && Enabled(Step(w, Runtime(L.Settle(i))), Enters(user, r));
    }
  }

  /** And once in, it can go on to its end whatever the others do. */
  lemma HolderGoesOn(born: map<string, C.Account>, run: seq<Event>, w: World, user: string, r: nat,
                     fate: C.Fate, result: L.Outcome)
    requires AllBorn(born) && After(born, run) == Some(w) && user in w.accounts
    requires w.accounts[user].holder == Some(r)
    ensures Enabled(w, Moves(user, r, fate, result))
    ensures w.accounts[user].requests[r].Leaving? ==>
              Step(w, Moves(user, r, fate, result)).accounts[user].holder.None?
  {
    RunKeepsInv(born, run, w);
  }
}
