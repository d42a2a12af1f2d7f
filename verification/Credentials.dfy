/**
 Sign-in, TOTP redemption, trusted-device sign-in and every way of changing a
 password, interleaved at each database call.

 One Account is the rows that belong to one user, with the user's credentials
 lock and the requests that work on them. Every request touches one user only.
 Passwords stand for themselves: a hash verifies exactly the text it was made
 from. `epoch` counts committed password writes, and a row remembers the epoch
 under which the password behind it was checked.
 */
module Credentials {
  import opened Wrappers

  type Id = nat

  /** OAuth and LDAP sign-ins mint outside the lock; their rows say so. */
  datatype Provenance = ByPassword(epoch: nat) | External

  datatype LoginRow = LoginRow(from: Provenance, used: bool)

  /** What a new session was obtained with. */
  datatype Source = FromPassword | FromLogin(login: Id) | FromDevice(device: Id) | FromChange

  /** A request, at the point where it waits for its next database call. */
  datatype Request =
    | SignInWaiting(quoted: string, remember: bool)
    | SignInLocked(quoted: string, remember: bool)
    | SignInRead(quoted: string, remember: bool, seen: Option<string>, activated: bool, totp: bool, epoch: nat)
    | TotpWaiting(login: Id, remember: bool)
    | TotpLocked(login: Id, remember: bool)
    | TotpRead(login: Id, remember: bool, from: Provenance)
    | TrustedWaiting(device: Id)
    | TrustedLocked(device: Id)
    | MintLogin(from: Provenance)
    | MintDevice(from: Provenance, source: Source)
    | MintSession(from: Provenance, source: Source)
    | ResetChecked(token: Id, next: string)
    | ResetWaiting(token: Id, next: string)
    | ResetLocked(token: Id, next: string)
    | ChangeWaiting(old_: Option<string>, next: string)
    | ChangeLocked(old_: Option<string>, next: string)
    | ChangeRead(old_: Option<string>, next: string, current: Option<string>)
    | AdminWaiting(chosen: Option<string>)
    | AdminLocked(chosen: Option<string>)
    | WipeSessions(reissue: bool)
    | WipeDevices(reissue: bool)
    | WipeLogins(reissue: bool)
    | Leaving
    | Done

  datatype Cause = ByChange(old_: Option<string>) | ByReset(token: Id) | ByAdmin

  /** History: a committed password write, and a session insert. */
  datatype Commit = Commit(request: nat, cause: Cause, before: Option<string>, after: Option<string>)
  datatype Mint = Mint(request: nat, source: Source)

  /** The user's rows. `issued` bounds the identifiers handed out so far; the
      last four fields are history. */
  datatype Rows = Rows(
    password: Option<string>,
    epoch: nat,
    sessions: map<Id, Provenance>,
    devices: map<Id, Provenance>,
    logins: map<Id, LoginRow>,
    reset: Option<Id>,
    issued: nat,
    commits: seq<Commit>,
    mints: seq<Mint>,
    spent: map<Id, nat>,
    redeemed: map<Id, nat>)

  datatype Account = Account(rows: Rows, holder: Option<nat>, requests: map<nat, Request>)

  /** What the outside decides when a request takes its next step: that the row
      has not expired, the code is right, the account is active, the write is
      accepted; and whether the row read says TOTP is on. */
  datatype Fate = Fate(ok: bool, totp: bool)

  datatype Event =
    | Begin(r: nat, request: Request)
    | Acquire(r: nat)
    | Advance(r: nat, fate: Fate)
    | Elsewhere(change: Change)

  /** Writes made outside the lock: OAuth and LDAP sign-ins, sign-out, the
      clean-up of expired rows, device revocation, the dropping of login tokens
      when TOTP is reset, and reset requests. */
  datatype Change =
    | ExternalSession
    | ExternalDevice
    | ExternalLogin
    | DropSession(id: Id)
    | DropDevice(id: Id)
    | DropLogin(id: Id)
    | RequestReset
    | DropReset

  predicate InLock(q: Request) {
    || q.SignInLocked? || q.SignInRead? || q.TotpLocked? || q.TotpRead? || q.TrustedLocked?
    || q.MintLogin? || q.MintDevice? || q.MintSession? || q.ResetLocked? || q.ChangeLocked?
    || q.ChangeRead? || q.AdminLocked? || q.WipeSessions? || q.WipeDevices? || q.WipeLogins?
    || q.Leaving?
  }

  predicate Queued(q: Request) {
    || q.SignInWaiting? || q.TotpWaiting? || q.TrustedWaiting? || q.ResetWaiting?
    || q.ChangeWaiting? || q.AdminWaiting?
  }

  /** The unlocked look-ups: a wrong password, an unknown token or device never
      gets as far as the lock. */
  predicate MayBegin(rows: Rows, q: Request) {
    match q
    case SignInWaiting(quoted, _) => rows.password == Some(quoted)
    case TotpWaiting(login, _) => login in rows.logins
    case TrustedWaiting(device) => device in rows.devices
    case ResetChecked(token, _) => rows.reset == Some(token)
    case ChangeWaiting(_, _) => true
    case AdminWaiting(_) => true
    case _ => false
  }

  function Entered(q: Request): Request
    requires Queued(q)
  {
    match q
    case SignInWaiting(quoted, remember) => SignInLocked(quoted, remember)
    case TotpWaiting(login, remember) => TotpLocked(login, remember)
    case TrustedWaiting(device) => TrustedLocked(device)
    case ResetWaiting(token, next) => ResetLocked(token, next)
    case ChangeWaiting(old_, next) => ChangeLocked(old_, next)
    case AdminWaiting(chosen) => AdminLocked(chosen)
  }

  predicate Enabled(a: Account, e: Event) {
    match e
    case Begin(r, q) => r !in a.requests && MayBegin(a.rows, q)
    case Acquire(r) => r in a.requests && Queued(a.requests[r]) && a.holder.None?
    case Advance(r, _) => r in a.requests && (InLock(a.requests[r]) || a.requests[r].ResetChecked?)
    case Elsewhere(_) => true
  }

  function WritePassword(rows: Rows, r: nat, cause: Cause, next: Option<string>): Rows {
    rows.(password := next,
          epoch := rows.epoch + 1,
          commits := rows.commits + [Commit(r, cause, rows.password, next)])
  }

  /** The next database call of request `r`, and where it leaves the request. */
  function Call(rows: Rows, r: nat, q: Request, fate: Fate): (Rows, Request)
    requires InLock(q) || q.ResetChecked?
  {
    match q
    case SignInLocked(quoted, remember) =>
      (rows, SignInRead(quoted, remember, rows.password, fate.ok, fate.totp, rows.epoch))
    case SignInRead(quoted, remember, seen, activated, totp, epoch) =>
      (rows,
       if seen != Some(quoted) || !activated then Leaving
       else if totp then MintLogin(ByPassword(epoch))
       else if remember then MintDevice(ByPassword(epoch), FromPassword)
       else MintSession(ByPassword(epoch), FromPassword))
    case TotpLocked(login, remember) =>
      (rows,
       if login !in rows.logins || rows.logins[login].used || !fate.ok then Leaving
       else TotpRead(login, remember, rows.logins[login].from))
    case TotpRead(login, remember, from) =>
      // `update` on a row that is gone throws.
      if login !in rows.logins then (rows, Leaving)
      else
        (rows.(logins := rows.logins[login := rows.logins[login].(used := true)],
               redeemed := rows.redeemed[login := r]),
         if remember then MintDevice(from, FromLogin(login)) else MintSession(from, FromLogin(login)))
    case TrustedLocked(device) =>
      (rows,
       if device !in rows.devices || !fate.ok then Leaving
       else MintSession(rows.devices[device], FromDevice(device)))
    case MintLogin(from) =>
      (if fate.ok
       then rows.(logins := rows.logins[rows.issued := LoginRow(from, false)], issued := rows.issued + 1)
       else rows,
       Leaving)
    case MintDevice(from, source) =>
      if fate.ok
      then (rows.(devices := rows.devices[rows.issued := from], issued := rows.issued + 1), MintSession(from, source))
      else (rows, Leaving)
    case MintSession(from, source) =>
      (if fate.ok
       then rows.(sessions := rows.sessions[rows.issued := from], issued := rows.issued + 1,
                  mints := rows.mints + [Mint(r, source)])
       else rows,
       Leaving)
    case ResetChecked(token, next) =>
      // `delete` on a token that is gone throws, and the request ends.
      if rows.reset != Some(token) then (rows, Done)
      else (rows.(reset := None, spent := rows.spent[token := r]), ResetWaiting(token, next))
    case ResetLocked(token, next) =>
      (WritePassword(rows, r, ByReset(token), Some(next)), WipeSessions(false))
    case ChangeLocked(old_, next) =>
      (rows, ChangeRead(old_, next, rows.password))
    case ChangeRead(old_, next, current) =>
      if current.Some? && old_ != current then (rows, Leaving)
      else (WritePassword(rows, r, ByChange(old_), Some(next)), WipeSessions(true))
    case AdminLocked(chosen) =>
      if fate.ok then (WritePassword(rows, r, ByAdmin, chosen), WipeSessions(false)) else (rows, Leaving)
    case WipeSessions(reissue) => (rows.(sessions := map[]), WipeDevices(reissue))
    case WipeDevices(reissue) => (rows.(devices := map[]), WipeLogins(reissue))
    case WipeLogins(reissue) =>
      (rows.(logins := map[]), if reissue then MintSession(ByPassword(rows.epoch), FromChange) else Leaving)
    case Leaving => (rows, Done)
  }

  function Changed(rows: Rows, change: Change): Rows {
    match change
    case ExternalSession =>
      rows.(sessions := rows.sessions[rows.issued := External], issued := rows.issued + 1)
    case ExternalDevice =>
      rows.(devices := rows.devices[rows.issued := External], issued := rows.issued + 1)
    case ExternalLogin =>
      rows.(logins := rows.logins[rows.issued := LoginRow(External, false)], issued := rows.issued + 1)
    case DropSession(id) => rows.(sessions := rows.sessions - {id})
    case DropDevice(id) => rows.(devices := rows.devices - {id})
    case DropLogin(id) => rows.(logins := rows.logins - {id})
    case RequestReset => rows.(reset := Some(rows.issued), issued := rows.issued + 1)
    case DropReset => rows.(reset := None)
  }

  function Step(a: Account, e: Event): Account
    requires Enabled(a, e)
  {
    match e
    case Begin(r, q) => a.(requests := a.requests[r := q])
    case Acquire(r) => Account(a.rows, Some(r), a.requests[r := Entered(a.requests[r])])
    case Advance(r, fate) =>
      var q := a.requests[r];
      var (rows, q') := Call(a.rows, r, q, fate);
      Account(rows, if q.Leaving? then None else a.holder, a.requests[r := q'])
    case Elsewhere(change) => a.(rows := Changed(a.rows, change))
  }

  /** An account as sign-up leaves it: its first session belongs to epoch 0. */
  function Born(password: Option<string>, signedIn: bool): Account {
    Account(
      Rows(password, 0, if signedIn then map[0 := ByPassword(0)] else map[], map[], map[],
           None, 1, [], [], map[], map[]),
      None, map[])
  }

  function After(born: Account, events: seq<Event>): Option<Account> {
    if events == [] then Some(born)
    else
      match After(born, events[..|events| - 1])
      case None => None
      case Some(a) =>
        if Enabled(a, events[|events| - 1]) then Some(Step(a, events[|events| - 1])) else None
  }

  // ---------------------------------------------------------------------
  // The lock and the rows
  // ---------------------------------------------------------------------

  ghost predicate LockOk(a: Account) {
    && (forall r | r in a.requests && InLock(a.requests[r]) :: a.holder == Some(r))
    && (a.holder.Some? ==> a.holder.value in a.requests && InLock(a.requests[a.holder.value]))
  }

  /** The request inside the lock, Done when there is none. */
  function Inside(a: Account): Request {
    if a.holder.Some? && a.holder.value in a.requests then a.requests[a.holder.value] else Done
  }

  predicate Current(rows: Rows, from: Provenance) {
    from.ByPassword? ==> from.epoch == rows.epoch
  }

  /** A password change is between its commit and the end of its wipe. */
  predicate Wiping(q: Request) {
    q.WipeSessions? || q.WipeDevices? || q.WipeLogins?
  }

  ghost predicate RowsOk(rows: Rows, inside: Request) {
    && (forall id | id in rows.sessions :: Current(rows, rows.sessions[id]) || inside.WipeSessions?)
    && (forall id | id in rows.devices ::
          Current(rows, rows.devices[id]) || inside.WipeSessions? || inside.WipeDevices?)
    && (forall id | id in rows.logins :: Current(rows, rows.logins[id].from) || Wiping(inside))
  }

  /** What the request inside the lock read is still what the rows say. */
  ghost predicate CopiesOk(rows: Rows, inside: Request) {
    match inside
    case SignInRead(_, _, seen, _, _, epoch) => seen == rows.password && epoch == rows.epoch
    case TotpRead(_, _, from) => Current(rows, from)
    case MintLogin(from) => Current(rows, from)
    case MintDevice(from, _) => Current(rows, from)
    case MintSession(from, _) => Current(rows, from)
    case ChangeRead(_, _, current) => current == rows.password
    case _ => true
  }

  lemma CallMoves(rows: Rows, r: nat, q: Request, fate: Fate)
    requires InLock(q) || q.ResetChecked?
    ensures InLock(Call(rows, r, q, fate).1) == !(q.Leaving? || q.ResetChecked?)
  {
  }

  lemma StepKeepsLock(a: Account, e: Event)
    requires LockOk(a) && Enabled(a, e)
    ensures LockOk(Step(a, e))
    ensures Inside(Step(a, e)) == match e
              case Begin(_, _) => Inside(a)
              case Acquire(r) => Entered(a.requests[r])
              case Advance(r, fate) =>
                if a.requests[r].ResetChecked? then Inside(a) else Call(a.rows, r, Inside(a), fate).1
              case Elsewhere(_) => Inside(a)
  {
    if e.Advance? { CallMoves(a.rows, e.r, a.requests[e.r], e.fate); }
  }

  /** One database call of the request inside the lock keeps the rows sound. */
  lemma CallKeepsSafe(rows: Rows, r: nat, q: Request, fate: Fate)
    requires InLock(q) && RowsOk(rows, q) && CopiesOk(rows, q)
    ensures var (rows', q') := Call(rows, r, q, fate); RowsOk(rows', q') && CopiesOk(rows', q')
  {
  }

  lemma ChangedKeepsSafe(rows: Rows, change: Change, inside: Request)
    requires RowsOk(rows, inside) && CopiesOk(rows, inside)
    ensures RowsOk(Changed(rows, change), inside) && CopiesOk(Changed(rows, change), inside)
  {
    ChangedKeepsRows(rows, change, inside);
    ChangedKeepsCopies(rows, change, inside);
  }

  lemma ChangedKeepsRows(rows: Rows, change: Change, inside: Request)
    requires RowsOk(rows, inside)
    ensures RowsOk(Changed(rows, change), inside)
  {
  }

  lemma ChangedKeepsCopies(rows: Rows, change: Change, inside: Request)
    requires CopiesOk(rows, inside)
    ensures CopiesOk(Changed(rows, change), inside)
  {
    var rows' := Changed(rows, change);
    assert rows'.password == rows.password && rows'.epoch == rows.epoch;
  }

  ghost predicate Safe(a: Account) {
    LockOk(a) && RowsOk(a.rows, Inside(a)) && CopiesOk(a.rows, Inside(a))
  }

  lemma StepKeepsSafe(a: Account, e: Event)
    requires Safe(a) && Enabled(a, e)
    ensures Safe(Step(a, e))
  {
    StepKeepsLock(a, e);
    match e
    case Begin(_, _) =>
    case Acquire(_) =>
    case Advance(r, fate) =>
      if !a.requests[r].ResetChecked? { CallKeepsSafe(a.rows, r, Inside(a), fate); }
    case Elsewhere(change) => ChangedKeepsSafe(a.rows, change, Inside(a));
  }

  // ---------------------------------------------------------------------
  // What happened, and who did it
  // ---------------------------------------------------------------------

  /** The request has no password write (no session insert) behind it. */
  predicate BeforeCommit(q: Request) {
    !(Wiping(q) || q.Leaving? || q.Done? || (q.MintSession? && q.source.FromChange?))
  }

  predicate BeforeMint(q: Request) {
    !q.Leaving? && !q.Done?
  }

  ghost predicate CommitsOk(rows: Rows) {
    var c := rows.commits;
    && (c != [] ==> c[|c| - 1].after == rows.password)
    && (forall i | 0 <= i < |c| - 1 :: c[i].after == c[i + 1].before)
    && (forall i | 0 <= i < |c| && c[i].cause.ByChange? :: c[i].before.None? || c[i].cause.old_ == c[i].before)
    && (forall i, j | 0 <= i < j < |c| :: c[i].request != c[j].request)
    && (forall i | 0 <= i < |c| && c[i].cause.ByReset? ::
          c[i].cause.token in rows.spent && rows.spent[c[i].cause.token] == c[i].request)
  }

  ghost predicate MintsOk(rows: Rows) {
    var m := rows.mints;
    && (forall i, j | 0 <= i < j < |m| :: m[i].request != m[j].request)
    && (forall i | 0 <= i < |m| && m[i].source.FromLogin? ::
          m[i].source.login in rows.redeemed && rows.redeemed[m[i].source.login] == m[i].request)
  }

  /** Identifiers are handed out once: a spent reset token is never outstanding
      again, and a redeemed login token that still has a row is marked used. */
  ghost predicate TokensOk(rows: Rows) {
    && (forall t | t in rows.spent :: t < rows.issued)
    && (rows.reset.Some? ==> rows.reset.value < rows.issued && rows.reset.value !in rows.spent)
    && (forall l | l in rows.logins :: l < rows.issued)
    && (forall l | l in rows.redeemed :: l < rows.issued && (l in rows.logins ==> rows.logins[l].used))
  }

  ghost predicate HistoryOk(rows: Rows) {
    CommitsOk(rows) && MintsOk(rows) && TokensOk(rows)
  }

  /** The tokens a request has used up are accounted to it. */
  predicate OwnsTokens(rows: Rows, r: nat, q: Request) {
    && (q.ResetWaiting? || q.ResetLocked? ==> q.token in rows.spent && rows.spent[q.token] == r)
    && ((q.MintDevice? || q.MintSession?) && q.source.FromLogin? ==>
          q.source.login in rows.redeemed && rows.redeemed[q.source.login] == r)
  }

  /** A request still on its way to a commit or a mint has made none. */
  ghost predicate NotYet(rows: Rows, r: nat, q: Request) {
    && (BeforeCommit(q) ==> forall i | 0 <= i < |rows.commits| :: rows.commits[i].request != r)
    && (BeforeMint(q) ==> forall i | 0 <= i < |rows.mints| :: rows.mints[i].request != r)
  }

  ghost predicate RequestOk(rows: Rows, r: nat, q: Request) {
    OwnsTokens(rows, r, q) && NotYet(rows, r, q)
  }

  /** The unused login token that was read has not been redeemed meanwhile. */
  predicate ReadOk(rows: Rows, inside: Request) {
    inside.TotpRead? ==> inside.login < rows.issued && inside.login !in rows.redeemed
  }

  /** `later` only adds to `rows`, and what it adds belongs to request `r`. */
  ghost predicate AddsOnly(rows: Rows, later: Rows, r: nat) {
    && (forall t | t in rows.spent :: t in later.spent && later.spent[t] == rows.spent[t])
    && (forall l | l in rows.redeemed :: l in later.redeemed && later.redeemed[l] == rows.redeemed[l])
    && (later.commits == rows.commits
        || (|later.commits| == |rows.commits| + 1 && later.commits[..|rows.commits|] == rows.commits
            && later.commits[|rows.commits|].request == r))
    && (later.mints == rows.mints
        || (|later.mints| == |rows.mints| + 1 && later.mints[..|rows.mints|] == rows.mints
            && later.mints[|rows.mints|].request == r))
  }

  lemma CallAddsOnly(rows: Rows, r: nat, q: Request, fate: Fate)
    requires InLock(q) || q.ResetChecked?
    requires TokensOk(rows) && ReadOk(rows, q)
    ensures AddsOnly(rows, Call(rows, r, q, fate).0, r)
  {
  }

  lemma OthersStayOk(rows: Rows, later: Rows, r: nat, other: nat, q: Request)
    requires AddsOnly(rows, later, r) && other != r && RequestOk(rows, other, q)
    ensures RequestOk(later, other, q)
  {
    forall i | 0 <= i < |later.commits| && BeforeCommit(q) ensures later.commits[i].request != other {
      if i < |rows.commits| { assert later.commits[i] == later.commits[..|rows.commits|][i]; }
    }
    forall i | 0 <= i < |later.mints| && BeforeMint(q) ensures later.mints[i].request != other {
      if i < |rows.mints| { assert later.mints[i] == later.mints[..|rows.mints|][i]; }
    }
  }

  lemma CallKeepsTokens(rows: Rows, r: nat, q: Request, fate: Fate)
    requires InLock(q) || q.ResetChecked?
    requires TokensOk(rows) && ReadOk(rows, q)
    ensures TokensOk(Call(rows, r, q, fate).0)
    ensures ReadOk(Call(rows, r, q, fate).0, Call(rows, r, q, fate).1)
  {
  }

  lemma CallKeepsRequest(rows: Rows, r: nat, q: Request, fate: Fate)
    requires InLock(q) || q.ResetChecked?
    requires RequestOk(rows, r, q)
    ensures RequestOk(Call(rows, r, q, fate).0, r, Call(rows, r, q, fate).1)
  {
    CallKeepsOwned(rows, r, q, fate);
    CallKeepsNotYet(rows, r, q, fate);
  }

  lemma CallKeepsOwned(rows: Rows, r: nat, q: Request, fate: Fate)
    requires InLock(q) || q.ResetChecked?
    requires OwnsTokens(rows, r, q)
    ensures OwnsTokens(Call(rows, r, q, fate).0, r, Call(rows, r, q, fate).1)
  {
  }

  lemma CallKeepsNotYet(rows: Rows, r: nat, q: Request, fate: Fate)
    requires InLock(q) || q.ResetChecked?
    requires NotYet(rows, r, q)
    ensures NotYet(Call(rows, r, q, fate).0, r, Call(rows, r, q, fate).1)
  {
  }

  lemma CallKeepsCommits(rows: Rows, r: nat, q: Request, fate: Fate)
    requires InLock(q) || q.ResetChecked?
    requires HistoryOk(rows) && RequestOk(rows, r, q)
    requires q.ResetChecked? || CopiesOk(rows, q)
    ensures CommitsOk(Call(rows, r, q, fate).0)
  {
    if q.ResetLocked? || q.ChangeRead? || q.AdminLocked? {
      WritingCallKeepsCommits(rows, r, q, fate);
    } else {
      OtherCallsCommitNothing(rows, r, q, fate);
      SameCommits(rows, Call(rows, r, q, fate).0, if q.ResetChecked? then q.token else 0, r);
    }
  }

  lemma WritingCallKeepsCommits(rows: Rows, r: nat, q: Request, fate: Fate)
    requires q.ResetLocked? || q.ChangeRead? || q.AdminLocked?
    requires CommitsOk(rows) && RequestOk(rows, r, q) && CopiesOk(rows, q)
    ensures CommitsOk(Call(rows, r, q, fate).0)
  {
    if q.ResetLocked? {
      WriteKeepsCommits(rows, r, ByReset(q.token), Some(q.next));
    } else if q.AdminLocked? {
      WriteKeepsCommits(rows, r, ByAdmin, q.chosen);
    } else if q.current.None? || q.old_ == q.current {
      WriteKeepsCommits(rows, r, ByChange(q.old_), Some(q.next));
    }
  }

  lemma OtherCallsCommitNothing(rows: Rows, r: nat, q: Request, fate: Fate)
    requires (InLock(q) || q.ResetChecked?) && !(q.ResetLocked? || q.ChangeRead? || q.AdminLocked?)
    ensures var rows' := Call(rows, r, q, fate).0;
            && rows'.commits == rows.commits && rows'.password == rows.password
            && (rows'.spent == rows.spent
                || (q.ResetChecked? && rows.reset == Some(q.token) && rows'.spent == rows.spent[q.token := r]))
  {
  }

  lemma SameCommits(rows: Rows, rows': Rows, t: Id, r: nat)
    requires CommitsOk(rows) && TokensOk(rows)
    requires rows'.commits == rows.commits && rows'.password == rows.password
    requires rows'.spent == rows.spent || (t !in rows.spent && rows'.spent == rows.spent[t := r])
    ensures CommitsOk(rows')
  {
  }

  lemma WriteKeepsCommits(rows: Rows, r: nat, cause: Cause, next: Option<string>)
    requires CommitsOk(rows) && forall i | 0 <= i < |rows.commits| :: rows.commits[i].request != r
    requires cause.ByChange? ==> rows.password.None? || cause.old_ == rows.password
    requires cause.ByReset? ==> cause.token in rows.spent && rows.spent[cause.token] == r
    ensures CommitsOk(WritePassword(rows, r, cause, next))
  {
  }

  lemma CallKeepsMints(rows: Rows, r: nat, q: Request, fate: Fate)
    requires InLock(q) || q.ResetChecked?
    requires HistoryOk(rows) && RequestOk(rows, r, q) && ReadOk(rows, q)
    ensures MintsOk(Call(rows, r, q, fate).0)
  {
  }

  ghost predicate Accounted(a: Account) {
    && HistoryOk(a.rows) && ReadOk(a.rows, Inside(a))
    && (forall r | r in a.requests :: RequestOk(a.rows, r, a.requests[r]))
    && (forall i | 0 <= i < |a.rows.commits| :: a.rows.commits[i].request in a.requests)
    && (forall i | 0 <= i < |a.rows.mints| :: a.rows.mints[i].request in a.requests)
  }

  lemma AdvanceKeepsAccounted(a: Account, r: nat, fate: Fate)
    requires Safe(a) && Accounted(a) && Enabled(a, Advance(r, fate))
    ensures Accounted(Step(a, Advance(r, fate)))
  {
    var t, q := Step(a, Advance(r, fate)), a.requests[r];
    StepKeepsLock(a, Advance(r, fate));
    assert !q.ResetChecked? ==> q == Inside(a);
    assert ReadOk(a.rows, q);
    CallKeepsTokens(a.rows, r, q, fate);
    CallKeepsRequest(a.rows, r, q, fate);
    CallKeepsCommits(a.rows, r, q, fate);
    CallKeepsMints(a.rows, r, q, fate);
    CallAddsOnly(a.rows, r, q, fate);
    AccountedAfterCall(a, t, r);
    assert q.ResetChecked? ==> t.rows.issued == a.rows.issued && t.rows.redeemed == a.rows.redeemed;
  }

  lemma AccountedAfterCall(a: Account, t: Account, r: nat)
    requires Accounted(a) && r in t.requests && t.requests == a.requests[r := t.requests[r]]
    requires AddsOnly(a.rows, t.rows, r) && RequestOk(t.rows, r, t.requests[r])
    ensures forall o | o in t.requests :: RequestOk(t.rows, o, t.requests[o])
    ensures forall i | 0 <= i < |t.rows.commits| :: t.rows.commits[i].request in t.requests
    ensures forall i | 0 <= i < |t.rows.mints| :: t.rows.mints[i].request in t.requests
  {
    forall o | o in t.requests ensures RequestOk(t.rows, o, t.requests[o]) {
      if o != r { OthersStayOk(a.rows, t.rows, r, o, a.requests[o]); }
    }
    forall i | 0 <= i < |t.rows.commits| ensures t.rows.commits[i].request in t.requests {
      if i < |a.rows.commits| { assert t.rows.commits[i] == t.rows.commits[..|a.rows.commits|][i]; }
    }
    forall i | 0 <= i < |t.rows.mints| ensures t.rows.mints[i].request in t.requests {
      if i < |a.rows.mints| { assert t.rows.mints[i] == t.rows.mints[..|a.rows.mints|][i]; }
    }
  }

  lemma ChangedKeepsTokens(rows: Rows, change: Change, inside: Request)
    requires TokensOk(rows) && ReadOk(rows, inside)
    ensures TokensOk(Changed(rows, change)) && ReadOk(Changed(rows, change), inside)
  {
  }

  lemma ChangedKeepsHistory(rows: Rows, change: Change)
    ensures var later := Changed(rows, change);
            && later.password == rows.password && later.commits == rows.commits && later.mints == rows.mints
            && later.spent == rows.spent && later.redeemed == rows.redeemed
  {
  }

  lemma ElsewhereKeepsAccounted(a: Account, change: Change)
    requires Accounted(a)
    ensures Accounted(Step(a, Elsewhere(change)))
  {
    ChangedKeepsTokens(a.rows, change, Inside(a));
    ChangedKeepsHistory(a.rows, change);
    var t := Step(a, Elsewhere(change));
    forall r | r in t.requests ensures RequestOk(t.rows, r, t.requests[r]) {
      assert RequestOk(a.rows, r, a.requests[r]);
    }
  }

  lemma BeginKeepsAccounted(a: Account, r: nat, q: Request)
    requires LockOk(a) && Accounted(a) && Enabled(a, Begin(r, q))
    ensures Accounted(Step(a, Begin(r, q)))
  {
    StepKeepsLock(a, Begin(r, q));
    assert RequestOk(a.rows, r, q);
  }

  lemma AcquireKeepsAccounted(a: Account, r: nat)
    requires LockOk(a) && Accounted(a) && Enabled(a, Acquire(r))
    ensures Accounted(Step(a, Acquire(r)))
  {
    StepKeepsLock(a, Acquire(r));
    assert RequestOk(a.rows, r, Entered(a.requests[r]));
  }

  lemma StepKeepsAccounted(a: Account, e: Event)
    requires Safe(a) && Accounted(a) && Enabled(a, e)
    ensures Accounted(Step(a, e))
  {
    match e
    case Begin(r, q) => BeginKeepsAccounted(a, r, q);
    case Acquire(r) => AcquireKeepsAccounted(a, r);
    case Advance(r, fate) => AdvanceKeepsAccounted(a, r, fate);
    case Elsewhere(change) => ElsewhereKeepsAccounted(a, change);
  }

  lemma {:induction false} Reachable(password: Option<string>, signedIn: bool, events: seq<Event>)
    requires After(Born(password, signedIn), events).Some?
    ensures var a := After(Born(password, signedIn), events).value; Safe(a) && Accounted(a)
  {
    if events != [] {
      var before := events[..|events| - 1];
      Reachable(password, signedIn, before);
      var a := After(Born(password, signedIn), before).value;
      StepKeepsSafe(a, events[|events| - 1]);
      StepKeepsAccounted(a, events[|events| - 1]);
    }
  }

  // ---------------------------------------------------------------------
  // The guarantees, over every schedule
  // ---------------------------------------------------------------------

  /** No session, device or login token descended from a password check outlives
      a password change: outside the wipe itself, every such row was obtained
      under the current password. */
  lemma NoStaleCredential(password: Option<string>, signedIn: bool, events: seq<Event>, a: Account)
    requires After(Born(password, signedIn), events) == Some(a)
    requires !Wiping(Inside(a))
    ensures forall id | id in a.rows.sessions :: Current(a.rows, a.rows.sessions[id])
    ensures forall id | id in a.rows.devices :: Current(a.rows, a.rows.devices[id])
    ensures forall id | id in a.rows.logins :: Current(a.rows, a.rows.logins[id].from)
  {
    Reachable(password, signedIn, events);
  }

  /** A session is inserted only under the password that is current at the insert. */
  lemma MintedUnderCurrentPassword(password: Option<string>, signedIn: bool, events: seq<Event>,
                                   a: Account, r: nat)
    requires After(Born(password, signedIn), events) == Some(a)
    requires r in a.requests && a.requests[r].MintSession?
    ensures a.holder == Some(r) && Current(a.rows, a.requests[r].from)
  {
    Reachable(password, signedIn, events);
  }

  /** Each accepted updatePassword quoted the password its own write replaced,
      or there was none. */
  lemma ChangeIsAuthorised(password: Option<string>, signedIn: bool, events: seq<Event>, a: Account, i: nat)
    requires After(Born(password, signedIn), events) == Some(a)
    requires i < |a.rows.commits| && a.rows.commits[i].cause.ByChange?
    ensures a.rows.commits[i].before.None? || a.rows.commits[i].before == a.rows.commits[i].cause.old_
  {
    Reachable(password, signedIn, events);
  }

  /** Two accepted changes that quote one old password: some write between them,
      the first included, put that very password back or removed it. */
  lemma QuotedOnce(password: Option<string>, signedIn: bool, events: seq<Event>, a: Account,
                   i: nat, j: nat, quoted: string) returns (k: nat)
    requires After(Born(password, signedIn), events) == Some(a)
    requires i < j < |a.rows.commits|
    requires a.rows.commits[i].cause == ByChange(Some(quoted))
    requires a.rows.commits[j].cause == ByChange(Some(quoted))
    ensures i <= k < j
    ensures a.rows.commits[k].after == Some(quoted) || a.rows.commits[k].after.None?
  {
    Reachable(password, signedIn, events);
    k := j - 1;
    assert a.rows.commits[k].after == a.rows.commits[k + 1].before;
  }

  /** A reset token changes the password at most once. */
  lemma ResetTokenOnce(password: Option<string>, signedIn: bool, events: seq<Event>, a: Account,
                       i: nat, j: nat, token: Id)
    requires After(Born(password, signedIn), events) == Some(a)
    requires i < |a.rows.commits| && a.rows.commits[i].cause == ByReset(token)
    requires j < |a.rows.commits| && a.rows.commits[j].cause == ByReset(token)
    ensures i == j
  {
    Reachable(password, signedIn, events);
    assert a.rows.commits[i].request == a.rows.spent[token] == a.rows.commits[j].request;
  }

  /** A login token mints at most one session. */
  lemma LoginTokenOnce(password: Option<string>, signedIn: bool, events: seq<Event>, a: Account,
                       i: nat, j: nat, login: Id)
    requires After(Born(password, signedIn), events) == Some(a)
    requires i < |a.rows.mints| && a.rows.mints[i].source == FromLogin(login)
    requires j < |a.rows.mints| && a.rows.mints[j].source == FromLogin(login)
    ensures i == j
  {
    Reachable(password, signedIn, events);
    assert a.rows.mints[i].request == a.rows.redeemed[login] == a.rows.mints[j].request;
  }

  // ---------------------------------------------------------------------
  // The functions run inside the lock, statement by statement
  // ---------------------------------------------------------------------

  function Rank(q: Request): nat {
    match q
    case SignInLocked(_, _) => 8
    case TotpLocked(_, _) => 8
    case ChangeLocked(_, _) => 8
    case TrustedLocked(_) => 8
    case SignInRead(_, _, _, _, _, _) => 7
    case TotpRead(_, _, _) => 7
    case ChangeRead(_, _, _) => 7
    case ResetLocked(_, _) => 7
    case AdminLocked(_) => 7
    case WipeSessions(_) => 6
    case WipeDevices(_) => 5
    case WipeLogins(_) => 4
    case MintDevice(_, _) => 3
    case MintSession(_, _) => 2
    case MintLogin(_) => 2
    case _ => 0
  }

  /** All the database calls of one request, from `q` to the end of its turn. */
  function Turn(rows: Rows, r: nat, q: Request, fate: Fate): Rows
    requires InLock(q)
    decreases Rank(q)
  {
    if q.Leaving? then rows
    else Turn(Call(rows, r, q, fate).0, r, Call(rows, r, q, fate).1, fate)
  }

  // ---------------------------------------------------------------------
  // A request that nothing interrupts
  // ---------------------------------------------------------------------

  /** What gets a request as far as the lock. */
  predicate Offered(rows: Rows, q: Request) {
    || (q.SignInWaiting? && rows.password == Some(q.quoted))
    || (q.TotpWaiting? && q.login in rows.logins)
    || (q.TrustedWaiting? && q.device in rows.devices)
    || q.ChangeWaiting? || q.AdminWaiting?
  }

  lemma {:induction false} AfterFirst(a: Account, e: Event, rest: seq<Event>)
    requires Enabled(a, e)
    ensures After(a, [e] + rest) == After(Step(a, e), rest)
  {
    var events := [e] + rest;
    if rest == [] {
      assert events[..0] == [];
    } else {
      var n := |rest| - 1;
      assert events[..|events| - 1] == [e] + rest[..n] && events[|events| - 1] == rest[n];
      AfterFirst(a, e, rest[..n]);
    }
  }

  lemma CallIsLess(rows: Rows, r: nat, q: Request, fate: Fate)
    requires InLock(q) && !q.Leaving?
    ensures InLock(Call(rows, r, q, fate).1) && Rank(Call(rows, r, q, fate).1) < Rank(q)
  {
  }

  /** The account at the end of the turn. */
  function TurnDone(a: Account, r: nat, q: Request, fate: Fate): Account
    requires InLock(q)
  {
    Account(Turn(a.rows, r, q, fate), None, a.requests[r := Done])
  }

  lemma {:induction false} LeavesAlone(a: Account, r: nat, q: Request, fate: Fate) returns (events: seq<Event>)
    requires r in a.requests && a.requests[r] == q && InLock(q) && a.holder == Some(r)
    ensures After(a, events) == Some(TurnDone(a, r, q, fate))
    decreases Rank(q)
  {
    var next := Step(a, Advance(r, fate));
    if q.Leaving? {
      events := [Advance(r, fate)];
      AfterFirst(a, Advance(r, fate), []);
      assert events == [Advance(r, fate)] + [];
    } else {
      CallIsLess(a.rows, r, q, fate);
      var rest := LeavesAlone(next, r, next.requests[r], fate);
      AfterFirst(a, Advance(r, fate), rest);
      events := [Advance(r, fate)] + rest;
      assert a.requests[r := next.requests[r]][r := Done] == a.requests[r := Done];
    }
  }

  /** From any account with nobody inside, each kind of request can begin, take the
      lock and be alone to its end, and then it has done its turn: so the services
      below do what the machine can do. */
  lemma TurnIsARun(a: Account, r: nat, q: Request, fate: Fate) returns (events: seq<Event>)
    requires a.holder.None? && r !in a.requests && Queued(q) && Offered(a.rows, q)
    ensures After(a, events) == Some(TurnDone(a, r, Entered(q), fate))
  {
    var begun := Step(a, Begin(r, q));
    var entered := Step(begun, Acquire(r));
    var rest := LeavesAlone(entered, r, Entered(q), fate);
    AfterFirst(begun, Acquire(r), rest);
    AfterFirst(a, Begin(r, q), [Acquire(r)] + rest);
    events := [Begin(r, q)] + ([Acquire(r)] + rest);
    assert a.requests[r := q][r := Entered(q)][r := Done] == a.requests[r := Done];
  }

  /** A reset spends its token first, outside the lock. */
  lemma ResetIsARun(a: Account, r: nat, token: Id, next: string, fate: Fate) returns (events: seq<Event>)
    requires a.holder.None? && r !in a.requests && a.rows.reset == Some(token)
    ensures var spent := a.(rows := a.rows.(reset := None, spent := a.rows.spent[token := r]));
            After(a, events) == Some(TurnDone(spent, r, ResetLocked(token, next), fate))
  {
    var q := ResetChecked(token, next);
    var begun := Step(a, Begin(r, q));
    var waiting := Step(begun, Advance(r, fate));
    var entered := Step(waiting, Acquire(r));
    var rest := LeavesAlone(entered, r, ResetLocked(token, next), fate);
    AfterFirst(waiting, Acquire(r), rest);
    AfterFirst(begun, Advance(r, fate), [Acquire(r)] + rest);
    AfterFirst(a, Begin(r, q), [Advance(r, fate)] + ([Acquire(r)] + rest));
    events := [Begin(r, q)] + ([Advance(r, fate)] + ([Acquire(r)] + rest));
    assert entered.requests[r := Done] == a.requests[r := Done];
  }

  class CredentialStore {
    var password: Option<string>
    var sessions: map<Id, Provenance>
    var devices: map<Id, Provenance>
    var logins: map<Id, LoginRow>
    var reset: Option<Id>
    var issued: nat
    ghost var epoch: nat
    ghost var commits: seq<Commit>
    ghost var mints: seq<Mint>
    ghost var spent: map<Id, nat>
    ghost var redeemed: map<Id, nat>

    constructor (password: Option<string>)
      ensures View() == Born(password, false).rows
    {
      this.password := password;
      sessions, devices, logins := map[], map[], map[];
      reset, issued := None, 1;
      epoch, commits, mints, spent, redeemed := 0, [], [], map[], map[];
    }

    ghost function View(): Rows
      reads this
    {
      Rows(password, epoch, sessions, devices, logins, reset, issued, commits, mints, spent, redeemed)
    }

    method CreateRefreshToken(ghost r: nat, ghost fate: Fate, from: Provenance, source: Source)
      requires fate.ok
      modifies this
      ensures View() == Turn(old(View()), r, MintSession(from, source), fate)
      ensures sessions == old(sessions)[old(issued) := from]
      ensures issued == old(issued) + 1
      ensures unchanged(`devices) && unchanged(`logins) && unchanged(`password) && unchanged(`reset)
    {
      sessions := sessions[issued := from];
      issued := issued + 1;
      mints := mints + [Mint(r, source)];
    }

    method SetTrustedDevice(ghost r: nat, ghost fate: Fate, from: Provenance, ghost source: Source)
      requires fate.ok
      modifies this
      ensures View() == Call(old(View()), r, MintDevice(from, source), fate).0
      ensures devices == old(devices)[old(issued) := from] && issued == old(issued) + 1
      ensures unchanged(`sessions) && unchanged(`logins) && unchanged(`password) && unchanged(`reset)
    {
      devices := devices[issued := from];
      issued := issued + 1;
    }

    /** signInWithPassword and generateToken. */
    method SignInWithPassword(ghost r: nat, quoted: string, remember: bool, activated: bool, totp: bool,
                              current: Provenance) returns (signedIn: bool)
      requires current == ByPassword(epoch)
      modifies this
      ensures View() == Turn(old(View()), r, SignInLocked(quoted, remember), Fate(activated, totp))
      ensures signedIn == (old(password) == Some(quoted) && activated)
      ensures !signedIn ==> View() == old(View())
      ensures signedIn && totp ==>
                && logins == old(logins)[old(issued) := LoginRow(current, false)]
                && sessions == old(sessions) && devices == old(devices)
      ensures signedIn && !totp && remember ==>
                && devices == old(devices)[old(issued) := current]
                && sessions == old(sessions)[old(issued) + 1 := current] && logins == old(logins)
      ensures signedIn && !totp && !remember ==>
                && sessions == old(sessions)[old(issued) := current]
                && devices == old(devices) && logins == old(logins)
      ensures password == old(password) && reset == old(reset)
    {
      ghost var fate := Fate(activated, totp);
      ghost var start := View();
      ghost var read := SignInRead(quoted, remember, password, activated, totp, epoch);
      assert Turn(start, r, SignInLocked(quoted, remember), fate) == Turn(start, r, read, fate);
      if password != Some(quoted) || !activated {
        assert Turn(start, r, read, fate) == Turn(start, r, Leaving, fate);
        return false;
      }
      if totp {
        assert Turn(start, r, read, fate) == Turn(start, r, MintLogin(current), fate);
        logins := logins[issued := LoginRow(current, false)];
        issued := issued + 1;
        assert Turn(start, r, MintLogin(current), fate) == Turn(View(), r, Leaving, fate);
        return true;
      }
      if remember {
        assert Turn(start, r, read, fate) == Turn(start, r, MintDevice(current, FromPassword), fate);
        SetTrustedDevice(r, fate, current, FromPassword);
        assert Turn(start, r, MintDevice(current, FromPassword), fate)
            == Turn(View(), r, MintSession(current, FromPassword), fate);
      } else {
        assert Turn(start, r, read, fate) == Turn(start, r, MintSession(current, FromPassword), fate);
      }
      CreateRefreshToken(r, fate, current, FromPassword);
      return true;
    }

    /** The locked body of signInTotp; `valid`: not expired, and the code is right. */
    method SignInTotp(ghost r: nat, login: Id, remember: bool, valid: bool) returns (signedIn: bool)
      modifies this
      ensures View() == Turn(old(View()), r, TotpLocked(login, remember), Fate(valid, true))
      ensures signedIn == (login in old(logins) && !old(logins)[login].used && valid)
      ensures !signedIn ==> View() == old(View())
      ensures signedIn ==>
                && logins == old(logins)[login := LoginRow(old(logins)[login].from, true)]
                && devices == (if remember then old(devices)[old(issued) := old(logins)[login].from]
                               else old(devices))
                && sessions == old(sessions)[old(issued) + (if remember then 1 else 0) := old(logins)[login].from]
      ensures password == old(password) && reset == old(reset)
    {
      ghost var fate := Fate(valid, true);
      ghost var start := View();
      if login !in logins || logins[login].used || !valid {
        return false;
      }
      var from := logins[login].from;
      ghost var read := TotpRead(login, remember, from);
      assert Turn(start, r, TotpLocked(login, remember), fate) == Turn(start, r, read, fate);
      logins := logins[login := logins[login].(used := true)];
      redeemed := redeemed[login := r];
      assert View() == Call(start, r, read, fate).0;
      if remember {
        ghost var marked := View();
        SetTrustedDevice(r, fate, from, FromLogin(login));
        assert Turn(marked, r, MintDevice(from, FromLogin(login)), fate)
            == Turn(View(), r, MintSession(from, FromLogin(login)), fate);
      }
      CreateRefreshToken(r, fate, from, FromLogin(login));
      return true;
    }

    /** The locked body of signInTrusted; `live`: not expired, account active. */
    method SignInTrusted(ghost r: nat, device: Id, live: bool) returns (signedIn: bool)
      modifies this
      ensures View() == Turn(old(View()), r, TrustedLocked(device), Fate(live, false))
      ensures signedIn == (device in old(devices) && live)
      ensures !signedIn ==> View() == old(View())
      ensures signedIn ==> sessions == old(sessions)[old(issued) := old(devices)[device]]
      ensures devices == old(devices) && logins == old(logins)
      ensures password == old(password) && reset == old(reset)
    {
      if device !in devices || !live {
        return false;
      }
      CreateRefreshToken(r, Fate(live, false), devices[device], FromDevice(device));
      return true;
    }

    /** What the three password changes share: write, then wipe the three tables. */
    method CommitThenWipe(ghost r: nat, ghost cause: Cause, next: Option<string>)
      modifies this
      ensures View() == Wiped(WritePassword(old(View()), r, cause, next))
    {
      commits := commits + [Commit(r, cause, password, next)];
      password := next;
      epoch := epoch + 1;
      sessions := map[];
      devices := map[];
      logins := map[];
    }

    ghost function Wiped(rows: Rows): Rows {
      rows.(sessions := map[], devices := map[], logins := map[])
    }

    lemma WipeTurn(rows: Rows, r: nat, fate: Fate, reissue: bool)
      ensures Turn(rows, r, WipeSessions(reissue), fate)
           == if reissue then Turn(Wiped(rows), r, MintSession(ByPassword(rows.epoch), FromChange), fate)
              else Wiped(rows)
    {
      var rows1 := rows.(sessions := map[]);
      var rows2 := rows1.(devices := map[]);
      assert Turn(rows, r, WipeSessions(reissue), fate) == Turn(rows1, r, WipeDevices(reissue), fate);
      assert Turn(rows1, r, WipeDevices(reissue), fate) == Turn(rows2, r, WipeLogins(reissue), fate);
      var (rows3, q) := Call(rows2, r, WipeLogins(reissue), fate);
      assert rows3 == Wiped(rows);
      assert Turn(rows2, r, WipeLogins(reissue), fate) == Turn(rows3, r, q, fate);
    }

    lemma ChangeTurn(rows: Rows, r: nat, old_: Option<string>, next: string, fate: Fate)
      ensures Turn(rows, r, ChangeLocked(old_, next), fate)
           == if rows.password.Some? && old_ != rows.password then rows
              else Turn(Wiped(WritePassword(rows, r, ByChange(old_), Some(next))), r,
                        MintSession(ByPassword(rows.epoch + 1), FromChange), fate)
    {
      var read := ChangeRead(old_, next, rows.password);
      assert Turn(rows, r, ChangeLocked(old_, next), fate) == Turn(rows, r, read, fate);
      if rows.password.Some? && old_ != rows.password {
        assert Turn(rows, r, read, fate) == Turn(rows, r, Leaving, fate);
      } else {
        AcceptedTurn(rows, r, old_, next, fate);
      }
    }

    lemma AcceptedTurn(rows: Rows, r: nat, old_: Option<string>, next: string, fate: Fate)
      requires rows.password.None? || old_ == rows.password
      ensures Turn(rows, r, ChangeRead(old_, next, rows.password), fate)
           == Turn(Wiped(WritePassword(rows, r, ByChange(old_), Some(next))), r,
                   MintSession(ByPassword(rows.epoch + 1), FromChange), fate)
    {
      var written := WritePassword(rows, r, ByChange(old_), Some(next));
      assert Call(rows, r, ChangeRead(old_, next, rows.password), fate) == (written, WipeSessions(true));
      assert Turn(rows, r, ChangeRead(old_, next, rows.password), fate) == Turn(written, r, WipeSessions(true), fate);
      WipeTurn(written, r, fate, true);
    }

    /** The locked body of resetPassword. */
    method ResetPassword(ghost r: nat, ghost token: Id, next: string)
      modifies this
      ensures View() == Turn(old(View()), r, ResetLocked(token, next), Fate(true, false))
      ensures password == Some(next) && sessions == map[] && devices == map[] && logins == map[]
    {
      ghost var start := View();
      CommitThenWipe(r, ByReset(token), Some(next));
      WipeTurn(WritePassword(start, r, ByReset(token), Some(next)), r, Fate(true, false), false);
    }

    /** The locked body of updatePassword: re-read, verify, write, wipe, reissue. */
    method UpdatePassword(ghost r: nat, old_: Option<string>, next: string, following: Provenance)
      returns (accepted: bool)
      requires following == ByPassword(epoch + 1)
      modifies this
      ensures View() == Turn(old(View()), r, ChangeLocked(old_, next), Fate(true, false))
      ensures accepted == (old(password).None? || old(password) == old_)
      ensures !accepted ==> View() == old(View())
      ensures accepted ==>
                && password == Some(next) && devices == map[] && logins == map[]
                && sessions == map[old(issued) := following]
    {
      ChangeTurn(View(), r, old_, next, Fate(true, false));
      if password.Some? && old_ != password {
        return false;
      }
      CommitThenWipe(r, ByChange(old_), Some(next));
      CreateRefreshToken(r, Fate(true, false), following, FromChange);
      return true;
    }

    /** The locked branch of UserSevice.update; `written`: the transaction
        neither refused the demotion nor hit a unique constraint. */
    method AdminUpdate(ghost r: nat, chosen: Option<string>, written: bool)
      modifies this
      ensures View() == Turn(old(View()), r, AdminLocked(chosen), Fate(written, false))
      ensures !written ==> View() == old(View())
      ensures written ==> password == chosen && sessions == map[] && devices == map[] && logins == map[]
    {
      if written {
        WipeTurn(WritePassword(View(), r, ByAdmin, chosen), r, Fate(written, false), false);
        CommitThenWipe(r, ByAdmin, chosen);
      }
    }
  }
}
