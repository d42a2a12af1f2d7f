/**
 Chunked uploads to local storage: the facade's id check (file.service.ts), the
 append-and-rename protocol with its size ceilings (local.service.ts), and the
 tag a contribution puts on its file afterwards (contribution.controller.ts).
 One request is one step.
 */
module Uploads {
  import opened Wrappers
  import Bits

  type Byte = bv8
  type Bytes = seq<Byte>
  type Key = (string, string)
  type Positive = n: nat | n > 0 witness 1

  /** A transfer as the upload path reads it; the two limits are null when unset. */
  datatype Share = Share(uploadLocked: bool, isCollection: bool, creatorLimit: Option<nat>, depositLimit: Option<nat>)

  datatype Settings = Settings(chunkSize: Positive, maxSize: nat, shares: map<string, Share>)

  datatype Row = Row(id: string, share: string, size: nat, contribution: Option<string>)

  /** temp and disk are keyed by the directory, which is the transfer, and the file. */
  datatype Store = Store(temp: map<Key, Bytes>, disk: map<Key, Bytes>, rows: seq<Row>)

  /** minted is the random identifier drawn when the caller gives none. */
  datatype Request = Request(share: string, id: Option<string>, isUuid: bool, minted: string,
                             index: int, total: int, data: Bytes, contribution: Option<string>)

  /** What the disk and the owner's storage quota have left. */
  datatype Room = Room(space: nat, quota: Option<int>)

  datatype Refusal =
    | NotAContribution | IdInUse | InvalidId | ShareMissing | AlreadyCompleted
    | UnexpectedChunk(expected: nat) | NotEnoughSpace | MaxSizeExceeded | QuotaExceeded

  // ---------------------------------------------------------------------
  // Sizes
  // ---------------------------------------------------------------------

  function Ceil(x: nat, c: Positive): nat {
    (x + c - 1) / c
  }

  /** The files a ceiling counts. */
  datatype Scope = Whole | Untagged | Of(contribution: string)

  predicate Counts(row: Row, share: string, scope: Scope) {
    && row.share == share
    && match scope
       case Whole => true
       case Untagged => row.contribution.None?
       case Of(c) => row.contribution == Some(c)
  }

  function Total(rows: seq<Row>, share: string, scope: Scope): nat {
    if rows == [] then 0
    else
      var last := rows[|rows| - 1];
      Total(rows[..|rows| - 1], share, scope) + if Counts(last, share, scope) then last.size else 0
  }

  function AccountLimit(settings: Settings, share: Share): nat {
    share.creatorLimit.GetOr(settings.maxSize)
  }

  function DepositLimit(settings: Settings, share: Share): nat {
    share.depositLimit.GetOr(AccountLimit(settings, share))
  }

  function ScopeOf(contribution: Option<string>): Scope {
    if contribution.Some? then Of(contribution.value) else Whole
  }

  function LimitOf(settings: Settings, share: Share, contribution: Option<string>): nat {
    if contribution.Some? then DepositLimit(settings, share) else AccountLimit(settings, share)
  }

  // ---------------------------------------------------------------------
  // One request
  // ---------------------------------------------------------------------

  predicate HasId(rows: seq<Row>, id: string) {
    exists i | 0 <= i < |rows| :: rows[i].id == id
  }

  function IdOf(req: Request): string {
    req.id.GetOr(req.minted)
  }

  function KeyOf(req: Request): Key {
    (req.share, IdOf(req))
  }

  function Partial(temp: map<Key, Bytes>, key: Key): Bytes {
    if key in temp then temp[key] else []
  }

  /** The checks that do not depend on what was uploaded so far. */
  function Barred(settings: Settings, req: Request): Option<Refusal> {
    if req.contribution.Some? && (req.share !in settings.shares || !settings.shares[req.share].isCollection) then
      Some(NotAContribution)
    else if req.id.Some? && !req.isUuid then Some(InvalidId)
    else if req.share !in settings.shares then Some(ShareMissing)
    else if settings.shares[req.share].uploadLocked && !settings.shares[req.share].isCollection then
      Some(AlreadyCompleted)
    else None
  }

  /** The checks on the sizes, with sum bytes committed in scope and have in the
      temporary file. */
  function Oversized(settings: Settings, sum: nat, req: Request, room: Room, have: nat): Option<Refusal>
    requires req.share in settings.shares
  {
    if room.space < |req.data| then Some(NotEnoughSpace)
    else if sum + have + |req.data| > LimitOf(settings, settings.shares[req.share], req.contribution) then
      Some(MaxSizeExceeded)
    else if room.quota.Some? && have + |req.data| > room.quota.value then Some(QuotaExceeded)
    else None
  }

  function Refused(settings: Settings, store: Store, req: Request, room: Room): Option<Refusal> {
    var barred := Barred(settings, req);
    if barred == Some(NotAContribution) then barred
    else if req.id.Some? && HasId(store.rows, req.id.value) then Some(IdInUse)
    else if barred.Some? then barred
    else
      var have := |Partial(store.temp, KeyOf(req))|;
      var expected := Ceil(have, settings.chunkSize);
      if expected != req.index then Some(UnexpectedChunk(expected))
      else Oversized(settings, Total(store.rows, req.share, ScopeOf(req.contribution)), req, room, have)
  }

  /** The append, and on the last chunk the rename and the row. */
  function Appended(store: Store, req: Request): Store {
    var whole := Partial(store.temp, KeyOf(req)) + req.data;
    if req.index == req.total - 1 then
      Store(store.temp - {KeyOf(req)}, store.disk[KeyOf(req) := whole],
            store.rows + [Row(IdOf(req), req.share, |whole|, None)])
    else store.(temp := store.temp[KeyOf(req) := whole])
  }

  function TagRow(row: Row, req: Request): Row {
    if row.id == IdOf(req) && row.share == req.share && row.contribution.None? then
      row.(contribution := req.contribution)
    else row
  }

  function Tagged(rows: seq<Row>, req: Request): (r: seq<Row>)
    ensures |r| == |rows|
  {
    seq(|rows|, i requires 0 <= i < |rows| => TagRow(rows[i], req))
  }

  function Post(settings: Settings, store: Store, req: Request, room: Room): Store {
    if Refused(settings, store, req, room).Some? then store
    else
      var appended := Appended(store, req);
      if req.contribution.Some? then appended.(rows := Tagged(appended.rows, req)) else appended
  }

  /** A random identifier names no file yet. */
  predicate Fresh(store: Store, req: Request) {
    req.id.None? ==> !HasId(store.rows, req.minted)
  }

  /** The tag reaches the row of this request and no other. */
  lemma TagsItsOwnRow(rows: seq<Row>, row: Row, req: Request)
    requires !HasId(rows, IdOf(req)) && row.id == IdOf(req) && row.share == req.share && row.contribution.None?
    ensures Tagged(rows, req) == rows
    ensures Tagged(rows + [row], req) == rows + [row.(contribution := req.contribution)]
  {
    forall i | 0 <= i < |rows| ensures TagRow(rows[i], req) == rows[i] {
      assert rows[i].id != IdOf(req);
    }
  }

  /** What an accepted request leaves: a longer temporary file, or the file. */
  lemma PostAccepted(settings: Settings, store: Store, req: Request, room: Room)
    requires Refused(settings, store, req, room).None? && Fresh(store, req)
    ensures !HasId(store.rows, IdOf(req))
    ensures var store' := Post(settings, store, req, room);
            var whole := Partial(store.temp, KeyOf(req)) + req.data;
            if req.index == req.total - 1 then
              && store'.temp == store.temp - {KeyOf(req)} && store'.disk == store.disk[KeyOf(req) := whole]
              && store'.rows == store.rows + [Row(IdOf(req), req.share, |whole|, req.contribution)]
            else
              store' == store.(temp := store.temp[KeyOf(req) := whole])
  {
    var whole := Partial(store.temp, KeyOf(req)) + req.data;
    TagsItsOwnRow(store.rows, Row(IdOf(req), req.share, |whole|, None), req);
  }

  /** The ceiling a write is held to: the deposit's own, else the owner's, else the
      one of the site. */
  function Limit(settings: Settings, share: Share, contribution: Option<string>): nat {
    if contribution.Some? && share.depositLimit.Some? then share.depositLimit.value
    else if share.creatorLimit.Some? then share.creatorLimit.value
    else settings.maxSize
  }

  predicate IsFree(store: Store, req: Request) {
    req.id.Some? ==> forall row | row in store.rows :: row.id != req.id.value
  }

  /** A contribution goes to a collection, which is open while it is locked; any
      other file to a transfer that is not locked. */
  predicate IsWritable(settings: Settings, req: Request) {
    && req.share in settings.shares
    && (settings.shares[req.share].isCollection
        || (!settings.shares[req.share].uploadLocked && req.contribution.None?))
  }

  /** The chunk begins in the last, partial chunk of what is there, or after it. */
  predicate IsNext(settings: Settings, have: nat, index: int) {
    (index - 1) * settings.chunkSize < have <= index * settings.chunkSize
  }

  /** Whose chunks are taken, in whatever order that is asked: a file under an id that
      is free, the next chunk, of a transfer that may be written, within space,
      ceiling and quota. */
  lemma AcceptedExactly(settings: Settings, store: Store, req: Request, room: Room)
    ensures Refused(settings, store, req, room).None? <==>
              && IsFree(store, req) && (req.id.Some? ==> req.isUuid) && IsWritable(settings, req)
              && var have := |Partial(store.temp, KeyOf(req))|;
                 && IsNext(settings, have, req.index) && |req.data| <= room.space
                 && Total(store.rows, req.share, ScopeOf(req.contribution)) + have + |req.data|
                    <= Limit(settings, settings.shares[req.share], req.contribution)
                 && (room.quota.Some? ==> have + |req.data| <= room.quota.value)
  {
    var have := |Partial(store.temp, KeyOf(req))|;
    CeilExactly(have, settings.chunkSize, req.index);
    if req.id.Some? { IdIsTaken(store.rows, req.id.value); }
  }

  /** And what the others are told: the first thing that is wrong. */
  lemma RefusedExactly(settings: Settings, store: Store, req: Request, room: Room, r: Option<Refusal>)
    requires r == Refused(settings, store, req, room)
    ensures var misplaced := req.contribution.Some?
                             && !(req.share in settings.shares && settings.shares[req.share].isCollection);
            && (r == Some(NotAContribution) <==> misplaced)
            && (r == Some(IdInUse) <==> !misplaced && !IsFree(store, req))
            && (r == Some(InvalidId) <==> !misplaced && IsFree(store, req) && req.id.Some? && !req.isUuid)
            && var named := !misplaced && IsFree(store, req) && (req.id.Some? ==> req.isUuid);
               && (r == Some(ShareMissing) <==> named && req.share !in settings.shares)
               && (r == Some(AlreadyCompleted) <==>
                     named && req.share in settings.shares && !IsWritable(settings, req))
    ensures var have := |Partial(store.temp, KeyOf(req))|;
            && (r.Some? && r.value.UnexpectedChunk? ==>
                  IsWritable(settings, req) && !IsNext(settings, have, req.index)
                  && IsNext(settings, have, r.value.expected))
            && (r == Some(NotEnoughSpace) ==> IsNext(settings, have, req.index) && room.space < |req.data|)
            && (r == Some(MaxSizeExceeded) ==>
                  && IsNext(settings, have, req.index) && |req.data| <= room.space && req.share in settings.shares
                  && Total(store.rows, req.share, ScopeOf(req.contribution)) + have + |req.data|
                     > Limit(settings, settings.shares[req.share], req.contribution))
            && (r == Some(QuotaExceeded) ==> room.quota.Some? && have + |req.data| > room.quota.value)
  {
    var have := |Partial(store.temp, KeyOf(req))|;
    CeilExactly(have, settings.chunkSize, req.index);
    CeilExactly(have, settings.chunkSize, Ceil(have, settings.chunkSize));
    if req.id.Some? { IdIsTaken(store.rows, req.id.value); }
  }

  lemma IdIsTaken(rows: seq<Row>, id: string)
    ensures HasId(rows, id) <==> !forall row | row in rows :: row.id != id
  {
    if i :| 0 <= i < |rows| && rows[i].id == id { assert rows[i] in rows; }
  }

  lemma CeilExactly(x: nat, c: Positive, k: int)
    ensures Ceil(x, c) == k <==> (k - 1) * c < x <= k * c
  {
    Bits.DivMod(x + c - 1, c);
    assert (k - 1) * c == k * c - c;
    if (k - 1) * c < x <= k * c {
      Bits.DivUnique(x + c - 1, c, k, x + c - 1 - k * c);
    }
  }

  // ---------------------------------------------------------------------
  // Runs
  // ---------------------------------------------------------------------

  /** The place of the file's row, or |rows|. */
  function IndexOf(rows: seq<Row>, id: string): (i: nat)
    ensures i <= |rows| && (i < |rows| <==> HasId(rows, id)) && (i < |rows| ==> rows[i].id == id)
  {
    if rows == [] then 0
    else if rows[0].id == id then 0
    else
      var i := IndexOf(rows[1..], id);
      assert forall j | 1 <= j < |rows| :: rows[j] == rows[1..][j - 1];
      1 + i
  }

  function WithoutAt(rows: seq<Row>, i: nat): seq<Row>
    requires i < |rows|
  {
    rows[..i] + rows[i + 1..]
  }

  /** One file of an archive import, under a new random id: its row, and no check. */
  function Import(settings: Settings, store: Store, share: string, id: string, data: Bytes): Store {
    if share !in settings.shares || HasId(store.rows, id) then store
    else Store(store.temp, store.disk[(share, id) := data], store.rows + [Row(id, share, |data|, None)])
  }

  /** remove of local.service.ts: the file and its row. */
  function Remove(store: Store, share: string, id: string): Store {
    var i := IndexOf(store.rows, id);
    if i == |store.rows| || (share, id) !in store.disk then store
    else Store(store.temp, store.disk - {(share, id)}, WithoutAt(store.rows, i))
  }

  /** A request; the nightly sweep taking a stale temporary file; a file imported
      or deleted. */
  datatype Event =
    | Posting(req: Request, room: Room)
    | Sweeping(key: Key)
    | Importing(share: string, id: string, data: Bytes)
    | Deleting(share: string, id: string)

  function Step(settings: Settings, store: Store, e: Event): Store {
    match e
    case Posting(req, room) => Post(settings, store, req, room)
    case Sweeping(key) => store.(temp := store.temp - {key})
    case Importing(share, id, data) => Import(settings, store, share, id, data)
    case Deleting(share, id) => Remove(store, share, id)
  }

  function After(settings: Settings, store: Store, run: seq<Event>): Store {
    if run == [] then store
    else Step(settings, After(settings, store, run[..|run| - 1]), run[|run| - 1])
  }

  /** Random identifiers never repeat in this run. */
  predicate FreshRun(settings: Settings, store: Store, run: seq<Event>) {
    run == [] ||
    var n := |run| - 1;
    && FreshRun(settings, store, run[..n])
    && (run[n].Posting? ==> Fresh(After(settings, store, run[..n]), run[n].req))
  }

  /** What an import would have to ask: whether its file fits what is left. */
  predicate ImportFits(settings: Settings, rows: seq<Row>, share: string, id: string, data: Bytes) {
    share in settings.shares && !HasId(rows, id) ==>
      Total(rows, share, Untagged) + |data| <= AccountLimit(settings, settings.shares[share])
  }

  predicate ImportsFit(settings: Settings, store: Store, run: seq<Event>) {
    run == [] ||
    var n := |run| - 1;
    && ImportsFit(settings, store, run[..n])
    && (run[n].Importing? ==>
          ImportFits(settings, After(settings, store, run[..n]).rows, run[n].share, run[n].id, run[n].data))
  }

  // ---------------------------------------------------------------------
  // Ceilings
  // ---------------------------------------------------------------------

  predicate DistinctIds(rows: seq<Row>) {
    forall i, j | 0 <= i < j < |rows| :: rows[i].id != rows[j].id
  }

  /** Only collections hold tagged files. */
  predicate TagsBelong(settings: Settings, rows: seq<Row>) {
    forall i | 0 <= i < |rows| ::
      rows[i].share in settings.shares
      && (rows[i].contribution.Some? ==> settings.shares[rows[i].share].isCollection)
  }

  ghost predicate AccountsHold(settings: Settings, rows: seq<Row>) {
    forall s | s in settings.shares :: Total(rows, s, Untagged) <= AccountLimit(settings, settings.shares[s])
  }

  ghost predicate DepositsHold(settings: Settings, rows: seq<Row>) {
    forall s, c: string | s in settings.shares ::
      Total(rows, s, Of(c)) <= DepositLimit(settings, settings.shares[s])
  }

  ghost predicate Ceilings(settings: Settings, rows: seq<Row>) {
    DistinctIds(rows) && TagsBelong(settings, rows) && AccountsHold(settings, rows) && DepositsHold(settings, rows)
  }

  lemma TotalOfOneMore(rows: seq<Row>, row: Row, share: string, scope: Scope)
    ensures Total(rows + [row], share, scope)
         == Total(rows, share, scope) + if Counts(row, share, scope) then row.size else 0
  {
    assert (rows + [row])[..|rows|] == rows;
  }

  lemma {:induction false} UntaggedIsPart(rows: seq<Row>, share: string)
    ensures Total(rows, share, Untagged) <= Total(rows, share, Whole)
  {
    if rows != [] {
      UntaggedIsPart(rows[..|rows| - 1], share);
    }
  }

  lemma {:induction false} OrdinaryIsUntagged(settings: Settings, rows: seq<Row>, share: string)
    requires TagsBelong(settings, rows) && share in settings.shares && !settings.shares[share].isCollection
    ensures Total(rows, share, Untagged) == Total(rows, share, Whole)
  {
    if rows != [] {
      var n := |rows| - 1;
      assert forall i | 0 <= i < n :: rows[..n][i] == rows[i];
      OrdinaryIsUntagged(settings, rows[..n], share);
      assert rows[n].share == share ==> rows[n].contribution.None?;
    }
  }

  predicate Fits(settings: Settings, rows: seq<Row>, row: Row) {
    && row.share in settings.shares
    && (row.contribution.Some? ==> settings.shares[row.share].isCollection)
    && Total(rows, row.share, ScopeOf(row.contribution)) + row.size
       <= LimitOf(settings, settings.shares[row.share], row.contribution)
  }

  lemma AccountFits(settings: Settings, rows: seq<Row>, row: Row, share: string)
    requires Fits(settings, rows, row) && share in settings.shares
    requires Total(rows, share, Untagged) <= AccountLimit(settings, settings.shares[share])
    ensures Total(rows + [row], share, Untagged) <= AccountLimit(settings, settings.shares[share])
  {
    TotalOfOneMore(rows, row, share, Untagged);
    UntaggedIsPart(rows, share);
  }

  lemma DepositFits(settings: Settings, rows: seq<Row>, row: Row, share: string, c: string)
    requires Fits(settings, rows, row) && share in settings.shares
    requires Total(rows, share, Of(c)) <= DepositLimit(settings, settings.shares[share])
    ensures Total(rows + [row], share, Of(c)) <= DepositLimit(settings, settings.shares[share])
  {
    TotalOfOneMore(rows, row, share, Of(c));
  }

  /** A row under a new id, of a transfer that may hold it. */
  predicate Belongs(settings: Settings, rows: seq<Row>, row: Row) {
    && !HasId(rows, row.id) && row.share in settings.shares
    && (row.contribution.Some? ==> settings.shares[row.share].isCollection)
  }

  lemma RowBelongs(settings: Settings, rows: seq<Row>, row: Row)
    requires DistinctIds(rows) && TagsBelong(settings, rows) && Belongs(settings, rows, row)
    ensures DistinctIds(rows + [row]) && TagsBelong(settings, rows + [row])
  {
  }

  lemma RowFits(settings: Settings, rows: seq<Row>, row: Row)
    requires Ceilings(settings, rows) && !HasId(rows, row.id) && Fits(settings, rows, row)
    ensures Ceilings(settings, rows + [row])
  {
    RowBelongs(settings, rows, row);
    forall s | s in settings.shares
      ensures Total(rows + [row], s, Untagged) <= AccountLimit(settings, settings.shares[s])
    {
      AccountFits(settings, rows, row, s);
    }
    forall s, c: string | s in settings.shares
      ensures Total(rows + [row], s, Of(c)) <= DepositLimit(settings, settings.shares[s])
    {
      DepositFits(settings, rows, row, s, c);
    }
  }

  lemma PostKeepsCeilings(settings: Settings, store: Store, req: Request, room: Room)
    requires Ceilings(settings, store.rows) && Fresh(store, req)
    ensures Ceilings(settings, Post(settings, store, req, room).rows)
  {
    if Refused(settings, store, req, room).None? {
      PostAccepted(settings, store, req, room);
      if req.index == req.total - 1 {
        var size := |Partial(store.temp, KeyOf(req)) + req.data|;
        RowFits(settings, store.rows, Row(IdOf(req), req.share, size, req.contribution));
      }
    }
  }

  /** An import asks nothing, and keeps every ceiling if and only if its file fits. */
  lemma ImportKeepsExactly(settings: Settings, store: Store, share: string, id: string, data: Bytes)
    requires Ceilings(settings, store.rows)
    ensures Ceilings(settings, Import(settings, store, share, id, data).rows)
       <==> ImportFits(settings, store.rows, share, id, data)
  {
    if share in settings.shares && !HasId(store.rows, id) {
      var row := Row(id, share, |data|, None);
      TotalOfOneMore(store.rows, row, share, Untagged);
      if ImportFits(settings, store.rows, share, id, data) {
        UntaggedFits(settings, store.rows, row);
      }
    }
  }

  lemma UntaggedFits(settings: Settings, rows: seq<Row>, row: Row)
    requires Ceilings(settings, rows) && Belongs(settings, rows, row) && row.contribution.None?
    requires Total(rows, row.share, Untagged) + row.size <= AccountLimit(settings, settings.shares[row.share])
    ensures Ceilings(settings, rows + [row])
  {
    RowBelongs(settings, rows, row);
    UntaggedAccounts(settings, rows, row);
    UntaggedDeposits(settings, rows, row);
  }

  lemma UntaggedAccounts(settings: Settings, rows: seq<Row>, row: Row)
    requires AccountsHold(settings, rows) && row.share in settings.shares
    requires Total(rows, row.share, Untagged) + row.size <= AccountLimit(settings, settings.shares[row.share])
    ensures AccountsHold(settings, rows + [row])
  {
    forall s | s in settings.shares
      ensures Total(rows + [row], s, Untagged) <= AccountLimit(settings, settings.shares[s])
    {
      TotalOfOneMore(rows, row, s, Untagged);
    }
  }

  lemma UntaggedDeposits(settings: Settings, rows: seq<Row>, row: Row)
    requires DepositsHold(settings, rows) && row.contribution.None?
    ensures DepositsHold(settings, rows + [row])
  {
    forall s, c: string | s in settings.shares
      ensures Total(rows + [row], s, Of(c)) <= DepositLimit(settings, settings.shares[s])
    {
      TotalOfOneMore(rows, row, s, Of(c));
    }
  }

  lemma {:induction false} TotalConcat(a: seq<Row>, b: seq<Row>, share: string, scope: Scope)
    ensures Total(a + b, share, scope) == Total(a, share, scope) + Total(b, share, scope)
  {
    if b == [] {
      assert a + b == a;
    } else {
      var n := |b| - 1;
      assert a + b == (a + b[..n]) + [b[n]];
      TotalConcat(a, b[..n], share, scope);
      TotalOfOneMore(a + b[..n], b[n], share, scope);
    }
  }

  lemma TotalWithout(rows: seq<Row>, i: nat, share: string, scope: Scope)
    requires i < |rows|
    ensures Total(WithoutAt(rows, i), share, scope) <= Total(rows, share, scope)
  {
    assert rows == rows[..i] + ([rows[i]] + rows[i + 1..]);
    TotalConcat(rows[..i], [rows[i]] + rows[i + 1..], share, scope);
    TotalConcat([rows[i]], rows[i + 1..], share, scope);
    TotalConcat(rows[..i], rows[i + 1..], share, scope);
  }

  lemma WithoutKeepsIds(rows: seq<Row>, i: nat)
    requires DistinctIds(rows) && i < |rows|
    ensures DistinctIds(WithoutAt(rows, i))
    ensures forall row | row in WithoutAt(rows, i) :: row in rows
    ensures forall id: string | id != rows[i].id :: HasId(WithoutAt(rows, i), id) <==> HasId(rows, id)
    ensures !HasId(WithoutAt(rows, i), rows[i].id)
  {
    var rows' := WithoutAt(rows, i);
    assert forall j | 0 <= j < |rows'| :: rows'[j] == if j < i then rows[j] else rows[j + 1];
    forall id: string | id != rows[i].id && HasId(rows, id) ensures HasId(rows', id) {
      var j :| 0 <= j < |rows| && rows[j].id == id;
      assert rows'[if j < i then j else j - 1] == rows[j];
    }
  }

  lemma WithoutKeepsTags(settings: Settings, rows: seq<Row>, i: nat)
    requires TagsBelong(settings, rows) && i < |rows|
    ensures TagsBelong(settings, WithoutAt(rows, i))
  {
    var rows' := WithoutAt(rows, i);
    assert forall j | 0 <= j < |rows'| :: rows'[j] == if j < i then rows[j] else rows[j + 1];
  }

  lemma WithoutKeepsCeilings(settings: Settings, rows: seq<Row>, i: nat)
    requires Ceilings(settings, rows) && i < |rows|
    ensures Ceilings(settings, WithoutAt(rows, i))
  {
    WithoutKeepsIds(rows, i);
    WithoutKeepsTags(settings, rows, i);
    forall s | s in settings.shares
      ensures Total(WithoutAt(rows, i), s, Untagged) <= AccountLimit(settings, settings.shares[s])
    {
      TotalWithout(rows, i, s, Untagged);
    }
    forall s, c: string | s in settings.shares
      ensures Total(WithoutAt(rows, i), s, Of(c)) <= DepositLimit(settings, settings.shares[s])
    {
      TotalWithout(rows, i, s, Of(c));
    }
  }

  lemma StepKeepsCeilings(settings: Settings, store: Store, e: Event)
    requires Ceilings(settings, store.rows) && (e.Posting? ==> Fresh(store, e.req))
    requires e.Importing? ==> ImportFits(settings, store.rows, e.share, e.id, e.data)
    ensures Ceilings(settings, Step(settings, store, e).rows)
  {
    match e
    case Posting(req, room) => PostKeepsCeilings(settings, store, req, room);
    case Sweeping(_) =>
    case Importing(share, id, data) => ImportKeepsExactly(settings, store, share, id, data);
    case Deleting(share, id) =>
      if HasId(store.rows, id) { WithoutKeepsCeilings(settings, store.rows, IndexOf(store.rows, id)); }
  }

  /** However many files upload at once, and whatever is deleted in between, what
      is committed stays under the ceilings, as long as what is imported fits. */
  lemma {:induction false} CeilingsHold(settings: Settings, store: Store, run: seq<Event>)
    requires Ceilings(settings, store.rows) && FreshRun(settings, store, run) && ImportsFit(settings, store, run)
    ensures Ceilings(settings, After(settings, store, run).rows)
  {
    if run != [] {
      var n := |run| - 1;
      CeilingsHold(settings, store, run[..n]);
      StepKeepsCeilings(settings, After(settings, store, run[..n]), run[n]);
    }
  }

  /** For an ordinary transfer that is all its bytes; for a contribution, all its deposit. */
  lemma CommittedUnderLimit(settings: Settings, store: Store, run: seq<Event>, share: string, contribution: string)
    requires Ceilings(settings, store.rows) && FreshRun(settings, store, run) && ImportsFit(settings, store, run)
    requires share in settings.shares
    ensures var rows := After(settings, store, run).rows;
            && Total(rows, share, Of(contribution)) <= DepositLimit(settings, settings.shares[share])
            && (!settings.shares[share].isCollection ==>
                  Total(rows, share, Whole) <= AccountLimit(settings, settings.shares[share]))
  {
    CeilingsHold(settings, store, run);
    if !settings.shares[share].isCollection {
      OrdinaryIsUntagged(settings, After(settings, store, run).rows, share);
    }
  }

  // ---------------------------------------------------------------------
  // How a client cuts a file
  // ---------------------------------------------------------------------

  function Start(k: nat, c: Positive): nat {
    k * c
  }

  /** How many pieces: at least one, for an empty file. */
  function Pieces(data: Bytes, c: Positive): nat {
    if data == [] then 1 else Ceil(|data|, c)
  }

  function Within(data: Bytes, i: nat): nat {
    if i <= |data| then i else |data|
  }

  /** Piece k: c bytes, save perhaps the last. */
  function Piece(data: Bytes, c: Positive, k: nat): Bytes {
    var from, to := Within(data, Start(k, c)), Within(data, Start(k + 1, c));
    if from <= to then data[from..to] else []
  }

  lemma StartNext(k: nat, c: Positive)
    ensures Start(k + 1, c) == Start(k, c) + c
  {
  }

  lemma {:induction false} StartMonotone(j: nat, k: nat, c: Positive)
    requires j <= k
    ensures Start(j, c) <= Start(k, c)
  {
    if j < k {
      StartMonotone(j, k - 1, c);
      StartNext(k - 1, c);
    }
  }

  lemma CeilBounds(x: nat, c: Positive)
    ensures x <= Start(Ceil(x, c), c) < x + c
  {
    Bits.DivMod(x + c - 1, c);
  }

  lemma CeilOfStart(k: nat, c: Positive)
    ensures Ceil(Start(k, c), c) == k
  {
    Bits.DivUnique(Start(k, c) + c - 1, c, k, c - 1);
  }

  /** All pieces but the last are full, and the last reaches the end. */
  lemma PieceBounds(data: Bytes, c: Positive, k: nat)
    requires k < Pieces(data, c)
    ensures Start(k, c) <= |data|
    ensures if k + 1 < Pieces(data, c) then Start(k + 1, c) <= |data| else |data| <= Start(k + 1, c)
    ensures k > 0 ==> Start(k, c) < |data|
  {
    var n := Pieces(data, c);
    if data != [] {
      CeilBounds(|data|, c);
      StartNext(n - 1, c);
      StartMonotone(k, n - 1, c);
      if k + 1 < n {
        StartMonotone(k + 1, n - 1, c);
      }
    }
  }

  lemma PieceExtends(data: Bytes, c: Positive, k: nat)
    requires k < Pieces(data, c)
    ensures Start(k, c) <= |data| && Within(data, Start(k + 1, c)) >= Start(k, c)
    ensures data[..Start(k, c)] + Piece(data, c, k)
         == if k + 1 < Pieces(data, c) then data[..Within(data, Start(k + 1, c))] else data
  {
    PieceBounds(data, c, k);
    StartNext(k, c);
    var from, to := Start(k, c), Within(data, Start(k + 1, c));
    assert data[..from] + data[from..to] == data[..to];
  }

  // ---------------------------------------------------------------------
  // A transfer that is completed
  // ---------------------------------------------------------------------

  /** Nothing of this transfer is there that was not, and no byte of it differs. */
  predicate NothingNew(store: Store, later: Store, share: string) {
    && (forall row | row in later.rows && row.share == share :: row in store.rows)
    && (forall key | key in later.disk && key.0 == share :: key in store.disk && later.disk[key] == store.disk[key])
    && (forall key | key in later.temp && key.0 == share :: key in store.temp && later.temp[key] == store.temp[key])
  }

  lemma TaggedElsewhere(rows: seq<Row>, req: Request, row: Row)
    requires row in Tagged(rows, req) && row.share != req.share
    ensures row in rows
  {
    var i :| 0 <= i < |rows| && Tagged(rows, req)[i] == row;
    assert rows[i] == row;
  }

  lemma PostElsewhere(settings: Settings, store: Store, req: Request, room: Room, share: string)
    requires req.share != share
    ensures NothingNew(store, Post(settings, store, req, room), share)
  {
    var appended := Appended(store, req);
    forall row | row in Post(settings, store, req, room).rows && row.share == share ensures row in store.rows {
      if row !in store.rows && row !in appended.rows { TaggedElsewhere(appended.rows, req, row); }
    }
  }

  lemma WithoutKeepsRows(rows: seq<Row>, i: nat, row: Row)
    requires i < |rows| && row in WithoutAt(rows, i)
    ensures row in rows
  {
  }

  lemma StepAddsNothing(settings: Settings, store: Store, e: Event, share: string)
    requires share in settings.shares && settings.shares[share].uploadLocked && !settings.shares[share].isCollection
    requires e.Importing? ==> e.share != share
    ensures NothingNew(store, Step(settings, store, e), share)
  {
    match e
    case Posting(req, room) =>
      if req.share == share { AcceptedExactly(settings, store, req, room); }
      else { PostElsewhere(settings, store, req, room, share); }
    case Sweeping(key) =>
    case Importing(other, id, data) =>
    case Deleting(other, id) =>
      if Remove(store, other, id) != store {
        forall row | row in Remove(store, other, id).rows ensures row in store.rows {
          WithoutKeepsRows(store.rows, IndexOf(store.rows, id), row);
        }
      }
  }

  /** Whatever is sent, in any run: a completed transfer that is no collection gets no
      file and no byte, temporary or not. */
  lemma {:induction false} CompletedGetsNothing(settings: Settings, store: Store, run: seq<Event>, share: string)
    requires share in settings.shares && settings.shares[share].uploadLocked && !settings.shares[share].isCollection
    requires forall i | 0 <= i < |run| && run[i].Importing? :: run[i].share != share
    ensures NothingNew(store, After(settings, store, run), share)
  {
    if run != [] {
      var n := |run| - 1;
      assert forall i | 0 <= i < n :: run[..n][i] == run[i];
      CompletedGetsNothing(settings, store, run[..n], share);
      StepAddsNothing(settings, After(settings, store, run[..n]), run[n], share);
    }
  }

  // ---------------------------------------------------------------------
  // Resuming: any order, any repeats
  // ---------------------------------------------------------------------

  /** A request that carries this id carries one of the pieces of this file. */
  predicate IsPiece(req: Request, key: Key, data: Bytes, c: Positive) {
    && KeyOf(req) == key && 0 <= req.index < Pieces(data, c)
    && req.total == Pieces(data, c) && req.data == Piece(data, c, req.index)
  }

  /** And an import, whose ids are random, never takes it. */
  predicate Drawn(e: Event, key: Key, data: Bytes, c: Positive) {
    && (e.Posting? && IdOf(e.req) == key.1 ==> IsPiece(e.req, key, data, c))
    && (e.Importing? ==> e.id != key.1)
  }

  predicate HoldsPieces(store: Store, key: Key, data: Bytes, c: Positive, k: nat) {
    && k < Pieces(data, c) && Start(k, c) <= |data|
    && Partial(store.temp, key) == data[..Start(k, c)]
  }

  predicate IsStored(store: Store, key: Key, data: Bytes) {
    && key in store.disk && store.disk[key] == data && key !in store.temp
    && forall i | 0 <= i < |store.rows| && store.rows[i].id == key.1 ::
         store.rows[i].share == key.0 && store.rows[i].size == |data|
  }

  /** The temporary file is a whole number of pieces, or the file is complete. */
  predicate Resumable(store: Store, key: Key, data: Bytes, c: Positive) {
    && DistinctIds(store.rows)
    && if HasId(store.rows, key.1) then IsStored(store, key, data)
       else exists k: nat | k < Pieces(data, c) :: HoldsPieces(store, key, data, c, k)
  }

  /** With k pieces in, piece k is the only one not sent back; the refusal of any
      other names k. */
  lemma OnlyTheNextPiece(settings: Settings, store: Store, req: Request, room: Room, data: Bytes, k: nat)
    requires HoldsPieces(store, KeyOf(req), data, settings.chunkSize, k)
    requires Barred(settings, req).None? && !HasId(store.rows, IdOf(req))
    ensures req.index != k <==> Refused(settings, store, req, room) == Some(UnexpectedChunk(k))
  {
    CeilOfStart(k, settings.chunkSize);
  }

  lemma AcceptedIsNext(settings: Settings, store: Store, req: Request, room: Room, data: Bytes, k: nat)
    requires HoldsPieces(store, KeyOf(req), data, settings.chunkSize, k)
    requires Refused(settings, store, req, room).None?
    ensures req.index == k
  {
    CeilOfStart(k, settings.chunkSize);
  }

  lemma PostKeepsResumable(settings: Settings, store: Store, req: Request, room: Room, key: Key, data: Bytes)
    requires Resumable(store, key, data, settings.chunkSize) && Fresh(store, req)
    requires Drawn(Posting(req, room), key, data, settings.chunkSize)
    ensures Resumable(Post(settings, store, req, room), key, data, settings.chunkSize)
  {
    var store' := Post(settings, store, req, room);
    if Refused(settings, store, req, room).None? {
      PostAccepted(settings, store, req, room);
      if IdOf(req) != key.1 {
        OtherFile(store, store', key, data, settings.chunkSize, req);
      } else {
        var k: nat :| k < Pieces(data, settings.chunkSize) && HoldsPieces(store, key, data, settings.chunkSize, k);
        AcceptedIsNext(settings, store, req, room, data, k);
        NextPiece(store, store', req, key, data, settings.chunkSize, k);
      }
    }
  }

  /** Piece k on top of k pieces: one more, or the file. */
  lemma NextPiece(store: Store, store': Store, req: Request, key: Key, data: Bytes, c: Positive, k: nat)
    requires HoldsPieces(store, key, data, c, k) && IsPiece(req, key, data, c) && req.index == k
    requires DistinctIds(store.rows) && !HasId(store.rows, key.1)
    requires if k + 1 < Pieces(data, c) then
               store' == store.(temp := store.temp[key := Partial(store.temp, key) + req.data])
             else
               && store'.temp == store.temp - {key}
               && store'.disk == store.disk[key := Partial(store.temp, key) + req.data]
               && store'.rows
                  == store.rows + [Row(key.1, key.0, |Partial(store.temp, key) + req.data|, req.contribution)]
    ensures Resumable(store', key, data, c)
  {
    PieceExtends(data, c, k);
    PieceBounds(data, c, k);
    if k + 1 < Pieces(data, c) {
      assert HoldsPieces(store', key, data, c, k + 1);
    } else {
      assert store'.rows[|store.rows|].id == key.1;
      assert IsStored(store', key, data);
    }
  }

  lemma OtherFile(store: Store, store': Store, key: Key, data: Bytes, c: Positive, req: Request)
    requires Resumable(store, key, data, c) && IdOf(req) != key.1 && !HasId(store.rows, IdOf(req))
    requires Partial(store'.temp, key) == Partial(store.temp, key) && (key in store'.temp <==> key in store.temp)
    requires key in store.disk ==> key in store'.disk && store'.disk[key] == store.disk[key]
    requires store'.rows == store.rows || (exists row: Row | row.id == IdOf(req) :: store'.rows == store.rows + [row])
    ensures Resumable(store', key, data, c)
  {
    assert HasId(store'.rows, key.1) <==> HasId(store.rows, key.1) by {
      if HasId(store.rows, key.1) {
        var i :| 0 <= i < |store.rows| && store.rows[i].id == key.1;
        assert store'.rows[i].id == key.1;
      }
    }
    if !HasId(store.rows, key.1) {
      var k: nat :| k < Pieces(data, c) && HoldsPieces(store, key, data, c, k);
      assert HoldsPieces(store', key, data, c, k);
    }
  }

  lemma SweepKeepsResumable(store: Store, swept: Key, key: Key, data: Bytes, c: Positive)
    requires Resumable(store, key, data, c)
    ensures Resumable(store.(temp := store.temp - {swept}), key, data, c)
  {
    var store' := store.(temp := store.temp - {swept});
    if !HasId(store.rows, key.1) {
      var k: nat :| k < Pieces(data, c) && HoldsPieces(store, key, data, c, k);
      if swept == key {
        PieceBounds(data, c, 0);
        assert HoldsPieces(store', key, data, c, 0);
      } else {
        assert HoldsPieces(store', key, data, c, k);
      }
    }
  }

  lemma ImportKeepsResumable(settings: Settings, store: Store, share: string, id: string, imported: Bytes,
                             key: Key, data: Bytes, c: Positive)
    requires Resumable(store, key, data, c) && id != key.1
    ensures Resumable(Import(settings, store, share, id, imported), key, data, c)
  {
    var store' := Import(settings, store, share, id, imported);
    if store' != store {
      AddedRowElsewhere(store.rows, Row(id, share, |imported|, None), key.1);
      if !HasId(store.rows, key.1) {
        var k: nat :| k < Pieces(data, c) && HoldsPieces(store, key, data, c, k);
        assert HoldsPieces(store', key, data, c, k);
      }
    }
  }

  lemma AddedRowElsewhere(rows: seq<Row>, row: Row, id: string)
    requires row.id != id
    ensures HasId(rows + [row], id) <==> HasId(rows, id)
  {
    if i :| 0 <= i < |rows| && rows[i].id == id {
      assert (rows + [row])[i] == rows[i];
    }
  }

  /** A file deleted can be sent again. */
  lemma DeleteKeepsResumable(settings: Settings, store: Store, share: string, id: string,
                             key: Key, data: Bytes, c: Positive)
    requires Resumable(store, key, data, c)
    ensures Resumable(Remove(store, share, id), key, data, c)
  {
    var store', i := Remove(store, share, id), IndexOf(store.rows, id);
    if store' != store {
      WithoutKeepsIds(store.rows, i);
      if id == key.1 {
        PieceBounds(data, c, 0);
        assert HoldsPieces(store', key, data, c, 0);
      } else if !HasId(store.rows, key.1) {
        var k: nat :| k < Pieces(data, c) && HoldsPieces(store, key, data, c, k);
        assert HoldsPieces(store', key, data, c, k);
      } else {
        assert IsStored(store', key, data);
      }
    }
  }

  /** Pieces of a file sent in any order, repeated, dropped, mixed with anything
      else: never anything but a whole number of pieces, then the file, once. */
  lemma {:induction false} AnyOrderIsResumable(settings: Settings, store: Store, run: seq<Event>, key: Key, data: Bytes)
    requires DistinctIds(store.rows) && !HasId(store.rows, key.1) && key !in store.temp
    requires FreshRun(settings, store, run)
    requires forall i | 0 <= i < |run| :: Drawn(run[i], key, data, settings.chunkSize)
    ensures Resumable(After(settings, store, run), key, data, settings.chunkSize)
  {
    if run == [] {
      PieceBounds(data, settings.chunkSize, 0);
      assert HoldsPieces(store, key, data, settings.chunkSize, 0);
    } else {
      var n := |run| - 1;
      assert forall i | 0 <= i < n :: run[..n][i] == run[i];
      AnyOrderIsResumable(settings, store, run[..n], key, data);
      var before := After(settings, store, run[..n]);
      match run[n]
      case Posting(req, room) => PostKeepsResumable(settings, before, req, room, key, data);
      case Sweeping(swept) => SweepKeepsResumable(before, swept, key, data, settings.chunkSize);
      case Importing(share, id, imported) =>
        ImportKeepsResumable(settings, before, share, id, imported, key, data, settings.chunkSize);
      case Deleting(share, id) => DeleteKeepsResumable(settings, before, share, id, key, data, settings.chunkSize);
    }
  }

  // ---------------------------------------------------------------------
  // Chunked equals one-shot
  // ---------------------------------------------------------------------

  /** The request for piece k. A client that gave no id sends back, from the
      second piece on, the one its first was answered with. */
  function Nth(file: Request, c: Positive, k: nat): Request {
    var named := if k == 0 || file.id.Some? then file else file.(id := Some(file.minted), isUuid := true);
    named.(index := k, total := Pieces(file.data, c), data := Piece(file.data, c, k))
  }

  /** The store once the client has sent its first k pieces in order. */
  function Sent(settings: Settings, store: Store, file: Request, room: Room, k: nat): Store {
    if k == 0 then store
    else
      Post(settings, Sent(settings, store, file, room, k - 1), Nth(file, settings.chunkSize, k - 1), room)
  }

  /** The file as one request, when the chunk size does not matter. Its id, given
      or minted, is new. */
  predicate OneShot(settings: Settings, store: Store, file: Request, room: Room) {
    && file.index == 0 && file.total == 1
    && !HasId(store.rows, IdOf(file)) && KeyOf(file) !in store.temp
    && room.space >= |file.data|
  }

  /** The first k pieces are in, and nothing else has changed. */
  predicate Progress(store: Store, now: Store, file: Request, c: Positive, k: nat) {
    && now == store.(temp := now.temp) && now.temp - {KeyOf(file)} == store.temp
    && HoldsPieces(now, KeyOf(file), file.data, c, k)
  }

  lemma NthAccepted(settings: Settings, store: Store, now: Store, file: Request, room: Room, k: nat)
    requires OneShot(settings, store, file, room) && Refused(settings, store, file, room).None?
    requires k < Pieces(file.data, settings.chunkSize) && now.rows == store.rows
    requires HoldsPieces(now, KeyOf(file), file.data, settings.chunkSize, k)
    ensures Refused(settings, now, Nth(file, settings.chunkSize, k), room).None?
  {
    CeilOfStart(k, settings.chunkSize);
    PieceBounds(file.data, settings.chunkSize, k);
    PieceExtends(file.data, settings.chunkSize, k);
    assert Partial(store.temp, KeyOf(file)) == [];
  }

  lemma NextProgress(settings: Settings, store: Store, now: Store, file: Request, room: Room, k: nat)
    requires OneShot(settings, store, file, room) && Refused(settings, store, file, room).None?
    requires k + 1 < Pieces(file.data, settings.chunkSize)
    requires Progress(store, now, file, settings.chunkSize, k)
    ensures Progress(store, Post(settings, now, Nth(file, settings.chunkSize, k), room), file, settings.chunkSize,
                     k + 1)
  {
    NthAccepted(settings, store, now, file, room, k);
    PostAccepted(settings, now, Nth(file, settings.chunkSize, k), room);
    PieceExtends(file.data, settings.chunkSize, k);
    PieceBounds(file.data, settings.chunkSize, k);
  }

  lemma {:induction false} SentSoFar(settings: Settings, store: Store, file: Request, room: Room, k: nat)
    requires OneShot(settings, store, file, room) && Refused(settings, store, file, room).None?
    requires k < Pieces(file.data, settings.chunkSize)
    ensures Progress(store, Sent(settings, store, file, room, k), file, settings.chunkSize, k)
  {
    if k == 0 {
      PieceBounds(file.data, settings.chunkSize, 0);
      assert store.temp - {KeyOf(file)} == store.temp;
    } else {
      SentSoFar(settings, store, file, room, k - 1);
      NextProgress(settings, store, Sent(settings, store, file, room, k - 1), file, room, k - 1);
    }
  }

  /** Nothing but the temporary file of this upload has changed. */
  predicate Uncommitted(store: Store, now: Store, file: Request, c: Positive) {
    && now == store.(temp := now.temp)
    && exists j: nat | j < Pieces(file.data, c) :: HoldsPieces(now, KeyOf(file), file.data, c, j)
  }

  lemma LastIsRefused(settings: Settings, store: Store, now: Store, file: Request, room: Room, j: nat)
    requires OneShot(settings, store, file, room) && Refused(settings, store, file, room).Some?
    requires now.rows == store.rows && HoldsPieces(now, KeyOf(file), file.data, settings.chunkSize, j)
    requires j + 1 == Pieces(file.data, settings.chunkSize)
    ensures Refused(settings, now, Nth(file, settings.chunkSize, j), room).Some?
  {
    var c := settings.chunkSize;
    CeilOfStart(j, c);
    CeilOfStart(0, c);
    PieceExtends(file.data, c, j);
    assert Start(j, c) + |Piece(file.data, c, j)| == |file.data|;
    assert Partial(store.temp, KeyOf(file)) == [];
  }

  lemma NextUncommitted(settings: Settings, store: Store, now: Store, file: Request, room: Room, k: nat)
    requires OneShot(settings, store, file, room) && Refused(settings, store, file, room).Some?
    requires k < Pieces(file.data, settings.chunkSize)
    requires Uncommitted(store, now, file, settings.chunkSize)
    ensures Uncommitted(store, Post(settings, now, Nth(file, settings.chunkSize, k), room), file, settings.chunkSize)
  {
    var c, req := settings.chunkSize, Nth(file, settings.chunkSize, k);
    var j: nat :| j < Pieces(file.data, c) && HoldsPieces(now, KeyOf(file), file.data, c, j);
    if Refused(settings, now, req, room).None? {
      AcceptedIsNext(settings, now, req, room, file.data, j);
      if j + 1 == Pieces(file.data, c) {
        LastIsRefused(settings, store, now, file, room, j);
      }
      PostAccepted(settings, now, req, room);
      PieceExtends(file.data, c, j);
      PieceBounds(file.data, c, j);
      assert HoldsPieces(Post(settings, now, req, room), KeyOf(file), file.data, c, j + 1);
    }
  }

  lemma NothingSent(settings: Settings, store: Store, file: Request, room: Room)
    requires OneShot(settings, store, file, room)
    ensures Uncommitted(store, Sent(settings, store, file, room, 0), file, settings.chunkSize)
  {
    PieceBounds(file.data, settings.chunkSize, 0);
    assert HoldsPieces(store, KeyOf(file), file.data, settings.chunkSize, 0);
  }

  lemma SentNext(settings: Settings, store: Store, file: Request, room: Room, k: nat, now: Store)
    requires now == Sent(settings, store, file, room, k)
    ensures Sent(settings, store, file, room, k + 1) == Post(settings, now, Nth(file, settings.chunkSize, k), room)
  {
  }

  /** Refused as a whole, the file is not committed by its pieces either. */
  lemma {:induction false} NeverCommitted(settings: Settings, store: Store, file: Request, room: Room, k: nat)
    requires OneShot(settings, store, file, room) && Refused(settings, store, file, room).Some?
    requires k <= Pieces(file.data, settings.chunkSize)
    ensures Uncommitted(store, Sent(settings, store, file, room, k), file, settings.chunkSize)
  {
    if k == 0 {
      NothingSent(settings, store, file, room);
    } else {
      NeverCommitted(settings, store, file, room, k - 1);
      NextSent(settings, store, file, room, k - 1);
    }
  }

  lemma NextSent(settings: Settings, store: Store, file: Request, room: Room, k: nat)
    requires OneShot(settings, store, file, room) && Refused(settings, store, file, room).Some?
    requires k < Pieces(file.data, settings.chunkSize)
    requires Uncommitted(store, Sent(settings, store, file, room, k), file, settings.chunkSize)
    ensures Uncommitted(store, Sent(settings, store, file, room, k + 1), file, settings.chunkSize)
  {
    var now := Sent(settings, store, file, room, k);
    SentNext(settings, store, file, room, k, now);
    NextUncommitted(settings, store, now, file, room, k);
  }

  /** The last piece commits what the whole file would have. */
  lemma LastCommits(settings: Settings, store: Store, now: Store, file: Request, room: Room, j: nat)
    requires OneShot(settings, store, file, room) && Refused(settings, store, file, room).None?
    requires j + 1 == Pieces(file.data, settings.chunkSize)
    requires Progress(store, now, file, settings.chunkSize, j)
    ensures Post(settings, now, Nth(file, settings.chunkSize, j), room) == Post(settings, store, file, room)
  {
    NthAccepted(settings, store, now, file, room, j);
    PieceExtends(file.data, settings.chunkSize, j);
    PostAccepted(settings, store, file, room);
    PostAccepted(settings, now, Nth(file, settings.chunkSize, j), room);
    assert Partial(store.temp, KeyOf(file)) + file.data == file.data;
    assert store.temp - {KeyOf(file)} == store.temp;
  }

  lemma AtLeastOnePiece(data: Bytes, c: Positive)
    ensures Pieces(data, c) > 0
  {
    CeilBounds(|data|, c);
  }

  lemma AllSent(settings: Settings, store: Store, file: Request, room: Room, n: nat)
    requires OneShot(settings, store, file, room) && Refused(settings, store, file, room).None?
    requires n == Pieces(file.data, settings.chunkSize) > 0
    ensures Sent(settings, store, file, room, n) == Post(settings, store, file, room)
  {
    SentSoFar(settings, store, file, room, n - 1);
    LastCommits(settings, store, Sent(settings, store, file, room, n - 1), file, room, n - 1);
  }

  /** In order, the pieces do exactly what the whole file would have done. */
  lemma ChunkedIsOneShot(settings: Settings, store: Store, file: Request, room: Room, sent: Store, whole: Store)
    requires OneShot(settings, store, file, room)
    requires sent == Sent(settings, store, file, room, Pieces(file.data, settings.chunkSize))
    requires whole == Post(settings, store, file, room)
    ensures sent.rows == whole.rows && sent.disk == whole.disk
    ensures Refused(settings, store, file, room).None? ==> sent == whole
  {
    var n := Pieces(file.data, settings.chunkSize);
    if Refused(settings, store, file, room).Some? {
      NeverCommitted(settings, store, file, room, n);
    } else {
      AtLeastOnePiece(file.data, settings.chunkSize);
      AllSent(settings, store, file, room, n);
    }
  }

  // ---------------------------------------------------------------------
  // The service
  // ---------------------------------------------------------------------

  class FileStore {
    const settings: Settings
    var temp: map<Key, Bytes>
    var disk: map<Key, Bytes>
    var rows: seq<Row>

    constructor (settings: Settings)
      ensures this.settings == settings && Now() == Store(map[], map[], [])
    {
      this.settings := settings;
      temp, disk, rows := map[], map[], [];
    }

    function Now(): Store
      reads this
    {
      Store(temp, disk, rows)
    }

    /** FileService.create over LocalFileService.create: the id, or the refusal. */
    method Create(req: Request, room: Room) returns (r: Result<string, Refusal>)
      requires Barred(settings, req) != Some(NotAContribution)
      modifies this
      ensures r == match Refused(settings, old(Now()), req, room)
                   case None => Ok(IdOf(req))
                   case Some(why) => Err(why)
      ensures Now() == if r.Ok? then Appended(old(Now()), req) else old(Now())
    {
      var refusal := Check(req, room);
      if refusal.Some? {
        return Err(refusal.value);
      }
      var key := (req.share, IdOf(req));
      temp := temp[key := (if key in temp then temp[key] else []) + req.data];
      if req.index == req.total - 1 {
        disk := disk[key := temp[key]];
        temp := temp - {key};
        rows := rows + [Row(key.1, req.share, |disk[key]|, None)];
        assert temp == old(temp) - {key};
      }
      return Ok(IdOf(req));
    }

    /** Everything create verifies before it writes, in its order. */
    method Check(req: Request, room: Room) returns (r: Option<Refusal>)
      requires Barred(settings, req) != Some(NotAContribution)
      ensures r == Refused(settings, Now(), req, room)
    {
      if req.id.Some? {
        for i := 0 to |rows|
          invariant forall j | 0 <= j < i :: rows[j].id != req.id.value
        {
          if rows[i].id == req.id.value {
            return Some(IdInUse);
          }
        }
        if !req.isUuid {
          return Some(InvalidId);
        }
      }
      if req.share !in settings.shares {
        return Some(ShareMissing);
      }
      var share := settings.shares[req.share];
      if share.uploadLocked && !share.isCollection {
        return Some(AlreadyCompleted);
      }
      var key, have := (req.share, IdOf(req)), 0;
      if key in temp {
        have := |temp[key]|;
      }
      var expected := Ceil(have, settings.chunkSize);
      if expected != req.index {
        return Some(UnexpectedChunk(expected));
      }
      r := CheckSizes(req, room, have);
    }

    method CheckSizes(req: Request, room: Room, have: nat) returns (r: Option<Refusal>)
      requires req.share in settings.shares
      ensures r == Oversized(settings, Total(rows, req.share, ScopeOf(req.contribution)), req, room, have)
    {
      if room.space < |req.data| {
        return Some(NotEnoughSpace);
      }
      var share := settings.shares[req.share];
      var sum := SumSizes(req.share, req.contribution);
      var limit := settings.maxSize;
      if req.contribution.Some? && share.depositLimit.Some? {
        limit := share.depositLimit.value;
      } else if share.creatorLimit.Some? {
        limit := share.creatorLimit.value;
      }
      if sum + have + |req.data| > limit {
        return Some(MaxSizeExceeded);
      }
      if room.quota.Some? && have + |req.data| > room.quota.value {
        return Some(QuotaExceeded);
      }
      return None;
    }

    /** The bytes already committed in the scope of this write. */
    method SumSizes(share: string, contribution: Option<string>) returns (sum: nat)
      ensures sum == Total(rows, share, ScopeOf(contribution))
    {
      sum := 0;
      for i := 0 to |rows|
        invariant sum == Total(rows[..i], share, ScopeOf(contribution))
      {
        assert rows[..i + 1][..i] == rows[..i];
        if rows[i].share == share && (contribution.Some? ==> rows[i].contribution == contribution) {
          sum := sum + rows[i].size;
        }
      }
      assert rows[..|rows|] == rows;
    }

    /** uploadFile of the contribution controller, past its guard: the upload,
        then the tag on whatever untagged row bears the id. */
    method UploadFile(req: Request, room: Room) returns (r: Result<string, Refusal>)
      requires req.contribution.Some? && Barred(settings, req) != Some(NotAContribution)
      modifies this
      ensures r.Ok? <==> Refused(settings, old(Now()), req, room).None?
      ensures Now() == Post(settings, old(Now()), req, room)
    {
      r := Create(req, room);
      if r.Ok? {
        ghost var all := rows;
        var i := 0;
        while i < |rows|
          invariant 0 <= i <= |rows| == |all|
          invariant temp == Appended(old(Now()), req).temp && disk == Appended(old(Now()), req).disk
          invariant forall j | 0 <= j < i :: rows[j] == TagRow(all[j], req)
          invariant forall j | i <= j < |all| :: rows[j] == all[j]
        {
          if rows[i].id == r.value && rows[i].share == req.share && rows[i].contribution.None? {
            rows := rows[i := rows[i].(contribution := req.contribution)];
          }
          i := i + 1;
        }
        assert rows == Tagged(all, req);
      }
    }
  }
}
