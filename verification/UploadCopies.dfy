/**
 What overlapping requests do to one file: pieces sent twice at the same time, and
 a last piece that comes late.
 */
module UploadCopies {
  import opened Wrappers
  import opened Uploads
  import opened O = UploadOverlaps

  /** The file is written in full and its row still to come. */
  predicate IsLate(t: Ticket, key: Key) {
    KeyOf(t.req) == key && (t.phase.Grown? || t.phase.Renamed? || t.phase.Measured?)
  }

  predicate NoneLate(tickets: Tickets, key: Key) {
    forall d | d in tickets :: !IsLate(tickets[d], key)
  }

  /** The request holds the whole file, temporary or renamed. */
  predicate LateOk(store: Store, t: Ticket, key: Key, data: Bytes) {
    match t.phase
    case Grown => key in store.temp ==> store.temp[key] == data
    case Renamed => key !in store.temp && key in store.disk && store.disk[key] == data
    case Measured(size) => size == |data| && key !in store.temp && key in store.disk && store.disk[key] == data
    case _ => true
  }

  predicate AllDrawn(tickets: Tickets, key: Key, data: Bytes, c: Positive) {
    forall d | d in tickets && IdOf(tickets[d].req) == key.1 :: IsPiece(tickets[d].req, key, data, c)
  }

  /** Until its row is there, the file is a whole number of pieces, or in the hands
      of one request that has all of it. */
  ghost predicate Tidy(s: State, key: Key, data: Bytes, c: Positive) {
    && DistinctIds(s.store.rows) && AllDrawn(s.tickets, key, data, c)
    && (forall d, d' | d in s.tickets && d' in s.tickets && IsLate(s.tickets[d], key) && IsLate(s.tickets[d'], key) ::
          d == d')
    && (forall d | d in s.tickets && IsLate(s.tickets[d], key) :: LateOk(s.store, s.tickets[d], key, data))
    && (HasId(s.store.rows, key.1) ==> NoneLate(s.tickets, key) && IsStored(s.store, key, data))
    && (!HasId(s.store.rows, key.1) && NoneLate(s.tickets, key) ==>
          exists k: nat | k < Pieces(data, c) :: HoldsPieces(s.store, key, data, c, k))
  }

  /** What a copy of piece i does where k pieces are: it is the one expected, or it
      holds the same bytes and neither is the last. */
  predicate ServesAs(data: Bytes, c: Positive, i: int, k: nat) {
    || i == k
    || (0 <= i && i + 1 < Pieces(data, c) && k + 1 < Pieces(data, c) && Piece(data, c, i) == Piece(data, c, k))
  }

  /** Nobody has the whole file yet, and this piece is the one expected now, when its
      append comes, whatever was expected when its index was checked. */
  predicate Welcome(s: State, t: Ticket, key: Key, data: Bytes, c: Positive) {
    && !HasId(s.store.rows, key.1) && NoneLate(s.tickets, key)
    && ServesAs(data, c, t.req.index, Ceil(|Partial(s.store.temp, key)|, c))
  }

  /** Past its checks, about to append to this file. */
  predicate Appends(t: Ticket, key: Key) {
    t.phase.Checked? && IdOf(t.req) == key.1
  }

  /** The requests of this file carry its pieces, none appends out of turn, and no
      import takes its id. */
  predicate Orderly(s: State, e: O.Event, key: Key, data: Bytes, c: Positive) {
    match e
    case Begins(_, req) => IdOf(req) == key.1 ==> IsPiece(req, key, data, c)
    case Goes(d, _) =>
      d in s.tickets && Appends(s.tickets[d], key) ==> Welcome(s, s.tickets[d], key, data, c)
    case Imports(_, id, _) => id != key.1
    case _ => true
  }

  predicate OrderlyRun(settings: Settings, run: seq<O.Event>, key: Key, data: Bytes) {
    run == [] ||
    var n := |run| - 1;
    && OrderlyRun(settings, run[..n], key, data)
    && match O.After(settings, run[..n])
       case None => true
       case Some(s) => Orderly(s, run[n], key, data, settings.chunkSize)
  }

  // ---------------------------------------------------------------------
  // Steps that do not touch the file
  // ---------------------------------------------------------------------

  /** The same requests hold the whole file. */
  predicate SameLate(tickets: Tickets, tickets': Tickets, key: Key) {
    && (forall d | d in tickets' && IsLate(tickets'[d], key) ::
          d in tickets && IsLate(tickets[d], key) && tickets'[d].phase == tickets[d].phase)
    && (forall d | d in tickets && IsLate(tickets[d], key) :: d in tickets' && IsLate(tickets'[d], key))
  }

  predicate SameBytes(store: Store, store': Store, key: Key) {
    && (key in store'.temp <==> key in store.temp) && (key in store'.disk <==> key in store.disk)
    && (key in store.temp ==> store'.temp[key] == store.temp[key])
    && (key in store.disk ==> store'.disk[key] == store.disk[key])
  }

  /** The rows of this id are those there were, but for their tags. */
  predicate SameRows(rows: seq<Row>, rows': seq<Row>, id: string) {
    && DistinctIds(rows') && (HasId(rows', id) <==> HasId(rows, id))
    && forall i | 0 <= i < |rows'| && rows'[i].id == id ::
         i < |rows| && rows[i].id == id && rows[i].share == rows'[i].share && rows[i].size == rows'[i].size
  }

  lemma StaysStored(store: Store, store': Store, key: Key, data: Bytes)
    requires SameBytes(store, store', key) && SameRows(store.rows, store'.rows, key.1)
    ensures IsStored(store, key, data) ==> IsStored(store', key, data)
  {
  }

  lemma StaysTidy(s: State, s': State, key: Key, data: Bytes, c: Positive)
    requires Tidy(s, key, data, c) && AllDrawn(s'.tickets, key, data, c) && SameLate(s.tickets, s'.tickets, key)
    requires SameBytes(s.store, s'.store, key) && SameRows(s.store.rows, s'.store.rows, key.1)
    ensures Tidy(s', key, data, c)
  {
    assert NoneLate(s'.tickets, key) <==> NoneLate(s.tickets, key);
    StaysStored(s.store, s'.store, key, data);
    if !HasId(s.store.rows, key.1) && NoneLate(s.tickets, key) {
      var k: nat :| k < Pieces(data, c) && HoldsPieces(s.store, key, data, c, k);
      assert HoldsPieces(s'.store, key, data, c, k);
    }
  }

  lemma TaggedSame(rows: seq<Row>, req: Request, id: string)
    requires DistinctIds(rows)
    ensures SameRows(rows, Tagged(rows, req), id)
  {
    var rows' := Tagged(rows, req);
    assert forall i | 0 <= i < |rows| :: rows'[i].id == rows[i].id;
    if i :| 0 <= i < |rows| && rows[i].id == id { assert rows'[i].id == id; }
  }

  predicate Alike(t: Ticket, t': Ticket) {
    t'.req == t.req && t'.phase == t.phase
  }

  /** One request moves, or ends, and the others are where they were. */
  predicate Moves(tickets: Tickets, d: nat, next: Option<Ticket>, tickets': Tickets) {
    && (forall d' | d' in tickets' && d' != d :: d' in tickets && Alike(tickets[d'], tickets'[d']))
    && (forall d' | d' in tickets && d' != d :: d' in tickets' && Alike(tickets[d'], tickets'[d']))
    && (d in tickets' <==> next.Some?) && (next.Some? ==> tickets'[d] == next.value)
  }

  /** What one request's call does to the tickets. */
  lemma TicketsAfter(settings: Settings, s: State, d: nat, room: Room, s': State, o: Outcome)
    requires d in s.tickets && s' == Gone(settings, s, d, room) && o == Next(settings, s, s.tickets[d], room)
    ensures Moves(s.tickets, d, o.next, s'.tickets) && s'.store == o.store
  {
    LandedStay(s.tickets, d, o);
  }

  /** The call leaves this file alone: it is for another, or it only reads. */
  predicate Apart(t: Ticket, key: Key) {
    IdOf(t.req) != key.1 || t.phase.Begun? || t.phase.Looked? || t.phase.Stated? || t.phase.Landed?
  }

  lemma MovedDrawn(tickets: Tickets, d: nat, next: Option<Ticket>, tickets': Tickets, key: Key, data: Bytes,
                   c: Positive)
    requires AllDrawn(tickets, key, data, c) && d in tickets && Moves(tickets, d, next, tickets')
    requires next.Some? ==> next.value.req == tickets[d].req
    ensures AllDrawn(tickets', key, data, c)
  {
  }

  lemma MovedLate(tickets: Tickets, d: nat, next: Option<Ticket>, tickets': Tickets, key: Key)
    requires d in tickets && Moves(tickets, d, next, tickets')
    requires !IsLate(tickets[d], key) && (next.Some? ==> !IsLate(next.value, key))
    ensures SameLate(tickets, tickets', key)
  {
  }

  lemma NextIs(settings: Settings, s: State, t: Ticket, room: Room, key: Key)
    ensures var next := Next(settings, s, t, room).next;
            next.Some? ==> next.value.req == t.req && (Apart(t, key) ==> !IsLate(next.value, key))
  {
  }

  lemma ApartBytes(settings: Settings, s: State, t: Ticket, room: Room, key: Key)
    requires Apart(t, key)
    ensures SameBytes(s.store, Next(settings, s, t, room).store, key)
  {
  }

  lemma ApartRows(settings: Settings, s: State, t: Ticket, room: Room, key: Key)
    requires Apart(t, key) && DistinctIds(s.store.rows)
    ensures SameRows(s.store.rows, Next(settings, s, t, room).store.rows, key.1)
  {
    match t.phase
    case Landed => TaggedSame(s.store.rows, t.req, key.1);
    case Measured(size) =>
      if !HasId(s.store.rows, IdOf(t.req)) {
        AddedRowElsewhere(s.store.rows, Row(IdOf(t.req), t.req.share, size, None), key.1);
      }
    case _ =>
  }

  lemma ApartKeeps(settings: Settings, s: State, d: nat, room: Room, key: Key, data: Bytes, c: Positive, s': State)
    requires Tidy(s, key, data, c) && d in s.tickets && Apart(s.tickets[d], key)
    requires s' == Gone(settings, s, d, room)
    ensures Tidy(s', key, data, c)
  {
    var o := Next(settings, s, s.tickets[d], room);
    TicketsAfter(settings, s, d, room, s', o);
    NextIs(settings, s, s.tickets[d], room, key);
    MovedDrawn(s.tickets, d, o.next, s'.tickets, key, data, c);
    MovedLate(s.tickets, d, o.next, s'.tickets, key);
    ApartBytes(settings, s, s.tickets[d], room, key);
    ApartRows(settings, s, s.tickets[d], room, key);
    StaysTidy(s, s', key, data, c);
  }

  // ---------------------------------------------------------------------
  // The append
  // ---------------------------------------------------------------------

  /** k pieces and a copy of piece i: whole pieces again, or the file. */
  lemma PieceServes(data: Bytes, c: Positive, i: nat, k: nat)
    requires i < Pieces(data, c) && k < Pieces(data, c)
    ensures Start(k, c) <= |data|
    ensures i + 1 < Pieces(data, c) && k + 1 < Pieces(data, c) ==>
              (data[..Start(k, c)] + Piece(data, c, i) == data[..Within(data, Start(k + 1, c))]
               <==> ServesAs(data, c, i, k))
    ensures |Piece(data, c, i)| <= c && (i + 1 < Pieces(data, c) ==> |Piece(data, c, i)| == c)
    ensures i + 1 == Pieces(data, c) ==> (data[..Start(k, c)] + Piece(data, c, i) == data <==> ServesAs(data, c, i, k))
  {
    PieceBounds(data, c, i);
    PieceBounds(data, c, k);
    PieceExtends(data, c, i);
    PieceExtends(data, c, k);
    StartNext(i, c);
    StartNext(k, c);
    var pre := data[..Start(k, c)];
    if k + 1 < Pieces(data, c) {
      SamePrefix(pre, Piece(data, c, i), Piece(data, c, k));
    }
    if k < i && i + 1 == Pieces(data, c) {
      StartMonotone(k + 1, i, c);
      assert |data| == Start(i, c) + |Piece(data, c, i)|;
      assert |pre + Piece(data, c, i)| < |data|;
    }
  }

  lemma SamePrefix(pre: Bytes, x: Bytes, y: Bytes)
    ensures pre + x == pre + y <==> x == y
  {
    if pre + x == pre + y {
      assert x == (pre + x)[|pre|..] && y == (pre + y)[|pre|..];
    }
  }

  /** The k of a file in pieces is what the index check expects. */
  lemma ExpectedIs(store: Store, key: Key, data: Bytes, c: Positive, k: nat)
    requires HoldsPieces(store, key, data, c, k)
    ensures Ceil(|Partial(store.temp, key)|, c) == k
  {
    CeilOfStart(k, c);
  }

  /** A piece that is not the last, where k pieces are. */
  lemma MiddleAppend(store: Store, key: Key, data: Bytes, c: Positive, i: nat, k: nat, store': Store)
    requires HoldsPieces(store, key, data, c, k) && i + 1 < Pieces(data, c)
    requires store' == store.(temp := store.temp[key := Partial(store.temp, key) + Piece(data, c, i)])
    ensures (exists j: nat | j < Pieces(data, c) :: HoldsPieces(store', key, data, c, j)) <==> ServesAs(data, c, i, k)
  {
    PieceServes(data, c, i, k);
    StartNext(k, c);
    CeilOfStart(k + 1, c);
    if ServesAs(data, c, i, k) {
      PieceBounds(data, c, k + 1);
      assert HoldsPieces(store', key, data, c, k + 1);
    }
    if j: nat :| j < Pieces(data, c) && HoldsPieces(store', key, data, c, j) {
      CeilOfStart(j, c);
      assert |Partial(store'.temp, key)| == Start(k + 1, c);
      assert j == k + 1;
    }
  }

  /** What the append does to the store and to the requests. */
  lemma AppendIs(settings: Settings, s: State, d: nat, room: Room, s': State)
    requires d in s.tickets && s.tickets[d].phase.Checked? && s' == Gone(settings, s, d, room)
    ensures s'.store == GrownStore(s.store, s.tickets[d].req)
    ensures Moves(s.tickets, d, Grows(s.tickets[d]), s'.tickets)
  {
    TicketsAfter(settings, s, d, room, s', Next(settings, s, s.tickets[d], room));
  }

  function Grows(t: Ticket): Option<Ticket> {
    if IsLast(t.req) then Some(t.(phase := Grown)) else None
  }

  /** The append of a piece that is not the last keeps the file tidy exactly when
      it is welcome. */
  lemma MiddleExactly(s: State, d: nat, key: Key, data: Bytes, c: Positive, k: nat, s': State)
    requires Tidy(s, key, data, c) && d in s.tickets && Appends(s.tickets[d], key)
    requires s'.store == GrownStore(s.store, s.tickets[d].req) && Moves(s.tickets, d, None, s'.tickets)
    requires !IsLast(s.tickets[d].req) && !HasId(s.store.rows, key.1) && NoneLate(s.tickets, key)
    requires HoldsPieces(s.store, key, data, c, k)
    ensures Tidy(s', key, data, c) <==> ServesAs(data, c, s.tickets[d].req.index, k)
  {
    var t := s.tickets[d];
    assert IsPiece(t.req, key, data, c);
    MovedDrawn(s.tickets, d, None, s'.tickets, key, data, c);
    MovedLate(s.tickets, d, None, s'.tickets, key);
    MiddleAppend(s.store, key, data, c, t.req.index, k, s'.store);
    assert NoneLate(s'.tickets, key);
  }

  /** And the append of the last piece. */
  lemma LastExactly(s: State, d: nat, key: Key, data: Bytes, c: Positive, k: nat, s': State)
    requires Tidy(s, key, data, c) && d in s.tickets && Appends(s.tickets[d], key)
    requires s'.store == GrownStore(s.store, s.tickets[d].req)
    requires Moves(s.tickets, d, Some(s.tickets[d].(phase := Grown)), s'.tickets)
    requires IsLast(s.tickets[d].req) && !HasId(s.store.rows, key.1) && NoneLate(s.tickets, key)
    requires HoldsPieces(s.store, key, data, c, k)
    ensures Tidy(s', key, data, c) <==> ServesAs(data, c, s.tickets[d].req.index, k)
  {
    var t := s.tickets[d];
    assert IsPiece(t.req, key, data, c);
    PieceServes(data, c, t.req.index, k);
    MovedDrawn(s.tickets, d, Some(t.(phase := Grown)), s'.tickets, key, data, c);
    assert IsLate(s'.tickets[d], key);
    assert s'.store.temp[key] == data[..Start(k, c)] + Piece(data, c, t.req.index);
    assert LateOk(s'.store, s'.tickets[d], key, data) <==> ServesAs(data, c, t.req.index, k);
  }

  /** Once somebody has the whole file, a second last piece makes two of them. */
  lemma TwoAreLate(s: State, d: nat, d': nat, key: Key, data: Bytes, c: Positive, s': State)
    requires d in s.tickets && Appends(s.tickets[d], key) && KeyOf(s.tickets[d].req) == key
    requires d' in s.tickets && IsLate(s.tickets[d'], key)
    requires Moves(s.tickets, d, Some(s.tickets[d].(phase := Grown)), s'.tickets)
    ensures !Tidy(s', key, data, c)
  {
    assert Alike(s.tickets[d'], s'.tickets[d']);
    assert IsLate(s'.tickets[d'], key) && IsLate(s'.tickets[d], key);
  }

  /** And any other piece lengthens a file that was whole. */
  lemma LateGrows(s: State, d: nat, d': nat, key: Key, data: Bytes, c: Positive, s': State)
    requires Tidy(s, key, data, c) && d in s.tickets && Appends(s.tickets[d], key)
    requires d' in s.tickets && IsLate(s.tickets[d'], key) && !IsLast(s.tickets[d].req)
    requires s'.store == GrownStore(s.store, s.tickets[d].req) && Moves(s.tickets, d, None, s'.tickets)
    ensures !Tidy(s', key, data, c)
  {
    var req := s.tickets[d].req;
    assert IsPiece(req, key, data, c);
    PieceServes(data, c, req.index, 0);
    PieceBounds(data, c, req.index + 1);
    StartNext(req.index, c);
    StartMonotone(1, req.index + 1, c);
    assert Alike(s.tickets[d'], s'.tickets[d']);
    assert LateOk(s.store, s.tickets[d'], key, data);
    assert |s'.store.temp[key]| != |data|;
    assert !LateOk(s'.store, s'.tickets[d'], key, data);
  }

  /** However far the others have come, the append of a copy keeps the file tidy if
      and only if it is welcome. */
  lemma AppendKeepsExactly(settings: Settings, s: State, d: nat, room: Room, key: Key, data: Bytes, s': State)
    requires Tidy(s, key, data, settings.chunkSize) && d in s.tickets && Appends(s.tickets[d], key)
    requires s' == Gone(settings, s, d, room)
    ensures Tidy(s', key, data, settings.chunkSize) <==> Welcome(s, s.tickets[d], key, data, settings.chunkSize)
  {
    AppendIs(settings, s, d, room, s');
    GrowsExactly(s, d, key, data, settings.chunkSize, s');
  }

  lemma GrowsExactly(s: State, d: nat, key: Key, data: Bytes, c: Positive, s': State)
    requires Tidy(s, key, data, c) && d in s.tickets && Appends(s.tickets[d], key)
    requires s'.store == GrownStore(s.store, s.tickets[d].req)
    requires Moves(s.tickets, d, Grows(s.tickets[d]), s'.tickets)
    ensures Tidy(s', key, data, c) <==> Welcome(s, s.tickets[d], key, data, c)
  {
    assert IsPiece(s.tickets[d].req, key, data, c);
    if HasId(s.store.rows, key.1) {
      assert key in s'.store.temp && !IsStored(s'.store, key, data);
    } else if !NoneLate(s.tickets, key) {
      var d' :| d' in s.tickets && IsLate(s.tickets[d'], key);
      if IsLast(s.tickets[d].req) {
        TwoAreLate(s, d, d', key, data, c, s');
      } else {
        LateGrows(s, d, d', key, data, c, s');
      }
    } else {
      var k: nat :| k < Pieces(data, c) && HoldsPieces(s.store, key, data, c, k);
      ExpectedIs(s.store, key, data, c, k);
      if IsLast(s.tickets[d].req) {
        LastExactly(s, d, key, data, c, k, s');
      } else {
        MiddleExactly(s, d, key, data, c, k, s');
      }
    }
  }

  // ---------------------------------------------------------------------
  // The rest of the last chunk
  // ---------------------------------------------------------------------

  lemma EmptyHoldsNone(store: Store, key: Key, data: Bytes, c: Positive)
    requires key !in store.temp
    ensures exists k: nat | k < Pieces(data, c) :: HoldsPieces(store, key, data, c, k)
  {
    AtLeastOnePiece(data, c);
    PieceBounds(data, c, 0);
    assert HoldsPieces(store, key, data, c, 0);
  }

  /** The request has the whole file, in this phase. */
  predicate Holds(s: State, d: nat, key: Key, phase: Phase) {
    d in s.tickets && IsLate(s.tickets[d], key) && s.tickets[d].phase == phase
  }

  lemma RenameIs(settings: Settings, s: State, d: nat, room: Room, key: Key, s': State)
    requires Holds(s, d, key, Grown) && key in s.store.temp && s' == Gone(settings, s, d, room)
    ensures s'.store == RenamedStore(s.store, key, s.store.temp[key])
    ensures Moves(s.tickets, d, Some(s.tickets[d].(phase := Renamed)), s'.tickets)
  {
    TicketsAfter(settings, s, d, room, s', Next(settings, s, s.tickets[d], room));
  }

  lemma DropIs(settings: Settings, s: State, d: nat, room: Room, key: Key, s': State)
    requires Holds(s, d, key, Grown) && key !in s.store.temp && s' == Gone(settings, s, d, room)
    ensures s'.store == s.store && Moves(s.tickets, d, None, s'.tickets)
  {
    TicketsAfter(settings, s, d, room, s', Next(settings, s, s.tickets[d], room));
  }

  lemma MeasureIs(settings: Settings, s: State, d: nat, room: Room, key: Key, data: Bytes, s': State)
    requires Holds(s, d, key, Renamed) && key in s.store.disk && s.store.disk[key] == data
    requires s' == Gone(settings, s, d, room)
    ensures s'.store == s.store && Moves(s.tickets, d, Some(s.tickets[d].(phase := Measured(|data|))), s'.tickets)
  {
    TicketsAfter(settings, s, d, room, s', Next(settings, s, s.tickets[d], room));
  }

  function Lands(t: Ticket): Option<Ticket> {
    if t.req.contribution.Some? then Some(t.(phase := Landed)) else None
  }

  lemma InsertIs(settings: Settings, s: State, d: nat, room: Room, key: Key, size: nat, s': State)
    requires Holds(s, d, key, Measured(size)) && !HasId(s.store.rows, key.1)
    requires s' == Gone(settings, s, d, room)
    ensures s'.store == s.store.(rows := s.store.rows + [Row(key.1, key.0, size, None)])
    ensures Moves(s.tickets, d, Lands(s.tickets[d]), s'.tickets)
  {
    TicketsAfter(settings, s, d, room, s', Next(settings, s, s.tickets[d], room));
  }

  /** The one request that holds the whole file goes on holding it. */
  lemma HandsOn(s: State, d: nat, key: Key, data: Bytes, c: Positive, phase: Phase, s': State)
    requires Tidy(s, key, data, c) && d in s.tickets && IsLate(s.tickets[d], key)
    requires Moves(s.tickets, d, Some(s.tickets[d].(phase := phase)), s'.tickets)
    requires phase.Renamed? || phase.Measured?
    requires s'.store.rows == s.store.rows && LateOk(s'.store, s.tickets[d].(phase := phase), key, data)
    ensures Tidy(s', key, data, c)
  {
    MovedDrawn(s.tickets, d, Some(s.tickets[d].(phase := phase)), s'.tickets, key, data, c);
    assert IsLate(s'.tickets[d], key);
    assert forall d' | d' in s'.tickets && d' != d :: d' in s.tickets && Alike(s.tickets[d'], s'.tickets[d']);
  }

  /** Or lets go of it. */
  lemma LetsGo(s: State, d: nat, key: Key, data: Bytes, c: Positive, next: Option<Ticket>, s': State)
    requires Tidy(s, key, data, c) && d in s.tickets && IsLate(s.tickets[d], key)
    requires next == None || next == Some(s.tickets[d].(phase := Landed))
    requires Moves(s.tickets, d, next, s'.tickets)
    ensures NoneLate(s'.tickets, key) && AllDrawn(s'.tickets, key, data, c)
  {
    MovedDrawn(s.tickets, d, next, s'.tickets, key, data, c);
    forall d' | d' in s'.tickets ensures !IsLate(s'.tickets[d'], key) {
      if d' != d { assert Alike(s.tickets[d'], s'.tickets[d']); }
    }
  }

  /** The rename; the file is gone when the sweep took it. */
  lemma RenameKeeps(settings: Settings, s: State, d: nat, room: Room, key: Key, data: Bytes, c: Positive, s': State)
    requires Tidy(s, key, data, c) && Holds(s, d, key, Grown) && s' == Gone(settings, s, d, room)
    ensures Tidy(s', key, data, c)
  {
    assert LateOk(s.store, s.tickets[d], key, data);
    if key in s.store.temp {
      RenameIs(settings, s, d, room, key, s');
      HandsOn(s, d, key, data, c, Renamed, s');
    } else {
      DropIs(settings, s, d, room, key, s');
      LetsGo(s, d, key, data, c, None, s');
      EmptyHoldsNone(s'.store, key, data, c);
    }
  }

  lemma MeasureKeeps(settings: Settings, s: State, d: nat, room: Room, key: Key, data: Bytes, c: Positive, s': State)
    requires Tidy(s, key, data, c) && Holds(s, d, key, Renamed) && s' == Gone(settings, s, d, room)
    ensures Tidy(s', key, data, c)
  {
    assert LateOk(s.store, s.tickets[d], key, data);
    MeasureIs(settings, s, d, room, key, data, s');
    HandsOn(s, d, key, data, c, Measured(|data|), s');
  }

  lemma InsertKeeps(settings: Settings, s: State, d: nat, room: Room, key: Key, data: Bytes, c: Positive, s': State)
    requires Tidy(s, key, data, c) && d in s.tickets && IsLate(s.tickets[d], key) && s.tickets[d].phase.Measured?
    requires s' == Gone(settings, s, d, room)
    ensures Tidy(s', key, data, c) && HasId(s'.store.rows, key.1)
  {
    assert LateOk(s.store, s.tickets[d], key, data);
    InsertIs(settings, s, d, room, key, |data|, s');
    LetsGo(s, d, key, data, c, Lands(s.tickets[d]), s');
    assert s'.store.rows[|s.store.rows|].id == key.1;
    assert IsStored(s'.store, key, data);
  }

  lemma GoesKeeps(settings: Settings, s: State, d: nat, room: Room, key: Key, data: Bytes, s': State)
    requires Tidy(s, key, data, settings.chunkSize) && d in s.tickets
    requires Orderly(s, O.Goes(d, room), key, data, settings.chunkSize) && s' == Gone(settings, s, d, room)
    ensures Tidy(s', key, data, settings.chunkSize)
  {
    var c, t := settings.chunkSize, s.tickets[d];
    if Apart(t, key) {
      ApartKeeps(settings, s, d, room, key, data, c, s');
    } else {
      assert IsPiece(t.req, key, data, c);
      match t.phase
      case Checked => AppendKeepsExactly(settings, s, d, room, key, data, s');
      case Grown => RenameKeeps(settings, s, d, room, key, data, c, s');
      case Renamed => MeasureKeeps(settings, s, d, room, key, data, c, s');
      case Measured(_) => InsertKeeps(settings, s, d, room, key, data, c, s');
    }
  }

  // ---------------------------------------------------------------------
  // The other events, and every run
  // ---------------------------------------------------------------------

  lemma SweepKeepsTidy(s: State, swept: Key, key: Key, data: Bytes, c: Positive, s': State)
    requires Tidy(s, key, data, c) && s' == s.(store := s.store.(temp := s.store.temp - {swept}))
    ensures Tidy(s', key, data, c)
  {
    if swept != key {
      StaysTidy(s, s', key, data, c);
    } else {
      EmptyHoldsNone(s'.store, key, data, c);
    }
  }

  lemma ImportKeepsTidy(settings: Settings, s: State, share: string, id: string, imported: Bytes,
                        key: Key, data: Bytes, c: Positive, s': State)
    requires Tidy(s, key, data, c) && id != key.1 && s' == Imported(settings, s, share, id, imported)
    ensures Tidy(s', key, data, c)
  {
    if s' != s {
      AddedRowElsewhere(s.store.rows, Row(id, share, |imported|, None), key.1);
      OthersLanded(s.tickets, Added(Row(id, share, |imported|, None)));
      StaysTidy(s, s', key, data, c);
    }
  }

  lemma DeleteKeepsTidy(s: State, share: string, id: string, key: Key, data: Bytes, c: Positive, s': State)
    requires Tidy(s, key, data, c) && s' == Deleted(s, share, id)
    ensures Tidy(s', key, data, c)
  {
    if s' != s {
      var i := IndexOf(s.store.rows, id);
      WithoutKeepsIds(s.store.rows, i);
      if id == key.1 {
        EmptyHoldsNone(s'.store, key, data, c);
      } else {
        DeletedElsewhere(s, share, id, key, data, c, s');
      }
    }
  }

  lemma DeletedElsewhere(s: State, share: string, id: string, key: Key, data: Bytes, c: Positive, s': State)
    requires Tidy(s, key, data, c) && s' == Deleted(s, share, id) && s' != s && id != key.1
    requires DistinctIds(s'.store.rows) && (HasId(s'.store.rows, key.1) <==> HasId(s.store.rows, key.1))
    ensures Tidy(s', key, data, c)
  {
    if HasId(s.store.rows, key.1) {
      assert IsStored(s'.store, key, data);
    } else if NoneLate(s.tickets, key) {
      var k: nat :| k < Pieces(data, c) && HoldsPieces(s.store, key, data, c, k);
      assert HoldsPieces(s'.store, key, data, c, k);
    }
  }

  lemma BeginKeepsTidy(settings: Settings, s: State, d: nat, req: Request, key: Key, data: Bytes, s': State)
    requires Tidy(s, key, data, settings.chunkSize) && O.Step(settings, s, Begins(d, req)) == Some(s')
    requires IdOf(req) == key.1 ==> IsPiece(req, key, data, settings.chunkSize)
    ensures Tidy(s', key, data, settings.chunkSize)
  {
    if s' != s {
      assert s'.store == s.store && s'.tickets == s.tickets[d := Ticket(req, Begun, false)];
      StaysTidy(s, s', key, data, settings.chunkSize);
    }
  }

  lemma StepKeepsTidy(settings: Settings, s: State, e: O.Event, key: Key, data: Bytes, s': State)
    requires Tidy(s, key, data, settings.chunkSize) && Orderly(s, e, key, data, settings.chunkSize)
    requires O.Step(settings, s, e) == Some(s')
    ensures Tidy(s', key, data, settings.chunkSize)
  {
    match e
    case Begins(d, req) => BeginKeepsTidy(settings, s, d, req, key, data, s');
    case Goes(d, room) => GoesKeeps(settings, s, d, room, key, data, s');
    case Sweeps(swept) => SweepKeepsTidy(s, swept, key, data, settings.chunkSize, s');
    case Imports(share, id, imported) =>
      ImportKeepsTidy(settings, s, share, id, imported, key, data, settings.chunkSize, s');
    case Deletes(share, id) => DeleteKeepsTidy(s, share, id, key, data, settings.chunkSize, s');
  }

  lemma {:induction false} RunKeepsTidy(settings: Settings, run: seq<O.Event>, key: Key, data: Bytes, s: State)
    requires O.After(settings, run) == Some(s) && OrderlyRun(settings, run, key, data)
    ensures Tidy(s, key, data, settings.chunkSize)
  {
    if run == [] {
      EmptyHoldsNone(EMPTY.store, key, data, settings.chunkSize);
    } else {
      var n := |run| - 1;
      var before := O.After(settings, run[..n]).value;
      RunKeepsTidy(settings, run[..n], key, data, before);
      StepKeepsTidy(settings, before, run[n], key, data, s);
    }
  }

  /** Pieces sent in any order and at the same time, cut call by call, with anything
      else in between: if every append is welcome, the file is a whole number of
      pieces, or complete once, whenever no request is between its last append and
      its row; and once there is a row the file is complete. */
  lemma OverlapIsResumable(settings: Settings, run: seq<O.Event>, key: Key, data: Bytes, s: State)
    requires O.After(settings, run) == Some(s) && OrderlyRun(settings, run, key, data)
    requires NoneLate(s.tickets, key) || HasId(s.store.rows, key.1)
    ensures Resumable(s.store, key, data, settings.chunkSize)
  {
    RunKeepsTidy(settings, run, key, data, s);
  }

  // ---------------------------------------------------------------------
  // A last piece that comes late
  // ---------------------------------------------------------------------

  /** A request of this file past its checks, with the last piece. */
  predicate HasLast(s: State, d: nat, key: Key, data: Bytes, c: Positive) {
    && d in s.tickets && s.tickets[d].phase.Checked? && IsPiece(s.tickets[d].req, key, data, c)
    && IsLast(s.tickets[d].req)
  }

  lemma FinishStep(settings: Settings, s: State, d: nat, room: Room, next: State)
    requires d in s.tickets && next == Gone(settings, s, d, room)
    ensures Finish(settings, s, d, room) == Finish(settings, next, d, room)
  {
  }

  /** Holding the whole file, with its row still to come or its tag. */
  predicate Finishing(s: State, d: nat, key: Key) {
    && d in s.tickets && IdOf(s.tickets[d].req) == key.1
    && (IsLate(s.tickets[d], key) || (s.tickets[d].phase.Landed? && HasId(s.store.rows, key.1)))
    && (s.tickets[d].phase.Grown? ==> key in s.store.temp)
  }

  lemma FinishesOn(settings: Settings, s: State, d: nat, room: Room, key: Key, data: Bytes, next: State)
    requires Tidy(s, key, data, settings.chunkSize) && Finishing(s, d, key) && next == Gone(settings, s, d, room)
    ensures Tidy(next, key, data, settings.chunkSize)
    ensures d in next.tickets ==> Finishing(next, d, key)
    ensures d !in next.tickets ==> HasId(next.store.rows, key.1)
  {
    var c := settings.chunkSize;
    assert IsLate(s.tickets[d], key) ==> LateOk(s.store, s.tickets[d], key, data);
    match s.tickets[d].phase
    case Grown =>
      RenameIs(settings, s, d, room, key, next);
      RenameKeeps(settings, s, d, room, key, data, c, next);
    case Renamed =>
      MeasureIs(settings, s, d, room, key, data, next);
      MeasureKeeps(settings, s, d, room, key, data, c, next);
    case Measured(_) =>
      InsertIs(settings, s, d, room, key, |data|, next);
      InsertKeeps(settings, s, d, room, key, data, c, next);
    case Landed =>
      TagFinishes(settings, s, d, room, key, data, c, next);
  }

  lemma TagFinishes(settings: Settings, s: State, d: nat, room: Room, key: Key, data: Bytes, c: Positive, next: State)
    requires Tidy(s, key, data, c) && d in s.tickets && s.tickets[d].phase.Landed? && HasId(s.store.rows, key.1)
    requires next == Gone(settings, s, d, room)
    ensures Tidy(next, key, data, c) && HasId(next.store.rows, key.1) && d !in next.tickets
  {
    ApartKeeps(settings, s, d, room, key, data, c, next);
    TaggedSame(s.store.rows, s.tickets[d].req, key.1);
  }

  lemma OthersKeepLast(settings: Settings, s: State, d: nat, room: Room, d': nat, key: Key, data: Bytes, c: Positive)
    requires d in s.tickets && d' != d && HasLast(s, d', key, data, c)
    ensures HasLast(Gone(settings, s, d, room), d', key, data, c)
  {
    TicketsAfter(settings, s, d, room, Gone(settings, s, d, room), Next(settings, s, s.tickets[d], room));
  }

  /** The request that holds the whole file ends with the file in place, and another
      past its checks stays where it is. */
  lemma {:induction false} LateFinishes(settings: Settings, s: State, d: nat, room: Room, d': nat, key: Key,
                                        data: Bytes, s': State)
    requires Tidy(s, key, data, settings.chunkSize) && Finishing(s, d, key)
    requires d' != d && HasLast(s, d', key, data, settings.chunkSize) && s' == Finish(settings, s, d, room)
    ensures HasId(s'.store.rows, key.1) && IsStored(s'.store, key, data)
    ensures HasLast(s', d', key, data, settings.chunkSize)
    decreases Left(s.tickets[d].phase)
  {
    var next := Gone(settings, s, d, room);
    FinishesOn(settings, s, d, room, key, data, next);
    NextIsLess(settings, s, d, room, next);
    OthersKeepLast(settings, s, d, room, d', key, data, settings.chunkSize);
    FinishStep(settings, s, d, room, next);
    if d in next.tickets { LateFinishes(settings, next, d, room, d', key, data, s'); }
  }

  /** A copy of the last piece that comes when the file is complete. */
  lemma CopyGrows(settings: Settings, s: State, d: nat, room: Room, key: Key, data: Bytes, grown: State)
    requires HasId(s.store.rows, key.1) && IsStored(s.store, key, data)
    requires HasLast(s, d, key, data, settings.chunkSize) && grown == Gone(settings, s, d, room)
    ensures grown.store.rows == s.store.rows && key in grown.store.temp
    ensures grown.store.temp[key] == s.tickets[d].req.data
    ensures d in grown.tickets && grown.tickets[d] == s.tickets[d].(phase := Grown)
  {
    TicketsAfter(settings, s, d, room, grown, Next(settings, s, s.tickets[d], room));
  }

  /** It takes the place of the file. */
  lemma CopyRenames(settings: Settings, s: State, d: nat, room: Room, key: Key, renamed: State)
    requires d in s.tickets && KeyOf(s.tickets[d].req) == key && s.tickets[d].phase.Grown? && key in s.store.temp
    requires renamed == Gone(settings, s, d, room)
    ensures renamed.store.rows == s.store.rows && key in renamed.store.disk
    ensures renamed.store.disk[key] == s.store.temp[key]
    ensures d in renamed.tickets && renamed.tickets[d] == s.tickets[d].(phase := Renamed)
  {
    TicketsAfter(settings, s, d, room, renamed, Next(settings, s, s.tickets[d], room));
  }

  /** And its own row is refused. */
  lemma CopyEnds(settings: Settings, s: State, d: nat, room: Room, key: Key, s': State)
    requires d in s.tickets && KeyOf(s.tickets[d].req) == key && s.tickets[d].phase.Renamed? && key in s.store.disk
    requires HasId(s.store.rows, key.1) && s' == Finish(settings, s, d, room)
    ensures s'.store == s.store
  {
    var measured := Gone(settings, s, d, room);
    TicketsAfter(settings, s, d, room, measured, Next(settings, s, s.tickets[d], room));
    FinishStep(settings, s, d, room, measured);
    CopyRefused(settings, measured, d, room, key, s');
  }

  lemma CopyRefused(settings: Settings, s: State, d: nat, room: Room, key: Key, s': State)
    requires d in s.tickets && KeyOf(s.tickets[d].req) == key && s.tickets[d].phase.Measured?
    requires HasId(s.store.rows, key.1) && s' == Finish(settings, s, d, room)
    ensures s'.store == s.store
  {
    var ended := Gone(settings, s, d, room);
    TicketsAfter(settings, s, d, room, ended, Next(settings, s, s.tickets[d], room));
    FinishStep(settings, s, d, room, ended);
  }

  lemma CopyReplaces(settings: Settings, s: State, d: nat, room: Room, key: Key, data: Bytes, s': State)
    requires HasId(s.store.rows, key.1) && IsStored(s.store, key, data)
    requires HasLast(s, d, key, data, settings.chunkSize) && s' == Finish(settings, s, d, room)
    ensures s'.store.rows == s.store.rows && key in s'.store.disk
    ensures s'.store.disk[key] == Piece(data, settings.chunkSize, Pieces(data, settings.chunkSize) - 1)
  {
    var grown := Gone(settings, s, d, room);
    CopyGrows(settings, s, d, room, key, data, grown);
    FinishStep(settings, s, d, room, grown);
    var renamed := Gone(settings, grown, d, room);
    CopyRenames(settings, grown, d, room, key, renamed);
    FinishStep(settings, grown, d, room, renamed);
    CopyEnds(settings, renamed, d, room, key, s');
  }

  lemma LastPieceIsAll(data: Bytes, c: Positive)
    ensures Pieces(data, c) > 0 && (Piece(data, c, Pieces(data, c) - 1) == data <==> Pieces(data, c) == 1)
  {
    AtLeastOnePiece(data, c);
    var k := Pieces(data, c) - 1;
    PieceExtends(data, c, k);
    PieceBounds(data, c, k);
  }

  lemma FirstFinishes(settings: Settings, s: State, d: nat, d': nat, room: Room, key: Key, data: Bytes, first: State)
    requires Tidy(s, key, data, settings.chunkSize) && d != d'
    requires HasLast(s, d, key, data, settings.chunkSize) && HasLast(s, d', key, data, settings.chunkSize)
    requires Welcome(s, s.tickets[d], key, data, settings.chunkSize) && first == Finish(settings, s, d, room)
    ensures HasId(first.store.rows, key.1) && IsStored(first.store, key, data)
    ensures HasLast(first, d', key, data, settings.chunkSize)
  {
    var grown := Gone(settings, s, d, room);
    AppendKeepsExactly(settings, s, d, room, key, data, grown);
    AppendIs(settings, s, d, room, grown);
    FinishStep(settings, s, d, room, grown);
    OthersKeepLast(settings, s, d, room, d', key, data, settings.chunkSize);
    LateFinishes(settings, grown, d, room, d', key, data, first);
  }

  /** Two copies of the last piece past their checks, the first of them welcome: one
      completes the file and the other then replaces it by the last piece alone. The
      file survives exactly when it has one piece only. */
  lemma LateCopyTruncates(settings: Settings, s: State, d: nat, d': nat, room: Room, key: Key, data: Bytes,
                          first: State, both: State)
    requires Tidy(s, key, data, settings.chunkSize) && d != d'
    requires HasLast(s, d, key, data, settings.chunkSize) && HasLast(s, d', key, data, settings.chunkSize)
    requires Welcome(s, s.tickets[d], key, data, settings.chunkSize)
    requires first == Finish(settings, s, d, room) && both == Finish(settings, first, d', room)
    ensures HasId(first.store.rows, key.1) && IsStored(first.store, key, data)
    ensures both.store.rows == first.store.rows && key in both.store.disk
    ensures both.store.disk[key] == data <==> Pieces(data, settings.chunkSize) == 1
  {
    FirstFinishes(settings, s, d, d', room, key, data, first);
    CopyReplaces(settings, first, d', room, key, data, both);
    LastPieceIsAll(data, settings.chunkSize);
  }

  // ---------------------------------------------------------------------
  // It happens
  // ---------------------------------------------------------------------

  lemma {:induction false} FinishIsReached(settings: Settings, s: State, d: nat, room: Room)
    requires Reached(settings, s)
    ensures Reached(settings, Finish(settings, s, d, room))
    ensures Finish(settings, s, d, room).tickets.Keys == s.tickets.Keys - {d}
    decreases if d in s.tickets then Left(s.tickets[d].phase) else 0
  {
    if d in s.tickets {
      var next := Gone(settings, s, d, room);
      NextIsLess(settings, s, d, room, next);
      FinishStep(settings, s, d, room, next);
      ReachedNext(settings, s, Goes(d, room), next);
      FinishIsReached(settings, next, d, room);
    }
  }

  lemma NextIsLess(settings: Settings, s: State, d: nat, room: Room, next: State)
    requires d in s.tickets && next == Gone(settings, s, d, room)
    ensures next.tickets.Keys - {d} == s.tickets.Keys - {d}
    ensures d in next.tickets ==> Left(next.tickets[d].phase) < Left(s.tickets[d].phase)
  {
    var o := Next(settings, s, s.tickets[d], room);
    TicketsAfter(settings, s, d, room, next, o);
    NextIsNearer(settings, s, s.tickets[d], room);
    MovedKeys(s.tickets, d, o.next, next.tickets);
  }

  lemma NextIsNearer(settings: Settings, s: State, t: Ticket, room: Room)
    ensures var next := Next(settings, s, t, room).next; next.Some? ==> Left(next.value.phase) < Left(t.phase)
  {
  }

  lemma MovedKeys(tickets: Tickets, d: nat, next: Option<Ticket>, tickets': Tickets)
    requires d in tickets && Moves(tickets, d, next, tickets')
    ensures tickets'.Keys - {d} == tickets.Keys - {d}
  {
  }

  /** A request that nothing interrupts. */
  lemma PostIsReached(settings: Settings, s: State, req: Request, room: Room) returns (s': State)
    requires Reached(settings, s) && s.tickets == map[] && Fresh(s.store, req)
    ensures Reached(settings, s') && s'.tickets == map[] && s'.store == Post(settings, s.store, req, room)
  {
    var begun := O.Step(settings, s, Begins(0, req)).value;
    ReachedNext(settings, s, Begins(0, req), begun);
    AloneIsPost(settings, s, 0, req, room, begun);
    FinishIsReached(settings, begun, 0, room);
    s' := Finish(settings, begun, 0, room);
  }

  /** All pieces but the last few, sent in order. */
  lemma {:induction false} SentIsReached(settings: Settings, file: Request, room: Room, k: nat) returns (s: State)
    requires OneShot(settings, EMPTY.store, file, room) && Refused(settings, EMPTY.store, file, room).None?
    requires k < Pieces(file.data, settings.chunkSize)
    ensures Reached(settings, s) && s.tickets == map[] && s.store == Sent(settings, EMPTY.store, file, room, k)
  {
    if k == 0 {
      s := EMPTY;
      EmptyIsReached(settings);
    } else {
      var before := SentIsReached(settings, file, room, k - 1);
      SentSoFar(settings, EMPTY.store, file, room, k - 1);
      SentNext(settings, EMPTY.store, file, room, k - 1, before.store);
      s := PostIsReached(settings, before, Nth(file, settings.chunkSize, k - 1), room);
    }
  }

  function Doubled(s: State, req: Request): State {
    s.(tickets := map[0 := Ticket(req, Checked, false), 1 := Ticket(req, Checked, false)])
  }

  /** Two copies of an accepted request can both get past their checks. */
  lemma BothPassChecks(settings: Settings, s: State, req: Request, room: Room)
    requires Reached(settings, s) && s.tickets == map[] && Refused(settings, s.store, req, room).None?
    ensures Reached(settings, Doubled(s, req))
  {
    var t := Ticket(req, Checked, false);
    PassesChecks(settings, s, 0, req, room, false);
    var one := With(s, 0, t);
    SameUncounted(s, 0, t, req);
    SecondPasses(settings, one, req, room);
    assert With(one, 1, t) == Doubled(s, req);
  }

  lemma SecondPasses(settings: Settings, one: State, req: Request, room: Room)
    requires Reached(settings, one) && 1 !in one.tickets && !Uncounted(one.tickets, req)
    requires Refused(settings, one.store, req, room).None?
    ensures Reached(settings, With(one, 1, Ticket(req, Checked, false)))
  {
    PassesChecks(settings, one, 1, req, room, false);
  }

  lemma DoubledIsTidy(s: State, req: Request, key: Key, data: Bytes, c: Positive)
    requires IsPiece(req, key, data, c) && IsLast(req) && !HasId(s.store.rows, key.1) && DistinctIds(s.store.rows)
    requires HoldsPieces(s.store, key, data, c, Pieces(data, c) - 1)
    ensures Tidy(Doubled(s, req), key, data, c) && Welcome(Doubled(s, req), Ticket(req, Checked, false), key, data, c)
    ensures HasLast(Doubled(s, req), 0, key, data, c) && HasLast(Doubled(s, req), 1, key, data, c)
  {
    ExpectedIs(s.store, key, data, c, Pieces(data, c) - 1);
  }

  /** Everything but the last piece is in, and two copies of that are past their checks. */
  lemma LastIsDoubled(settings: Settings, file: Request, room: Room, req: Request) returns (before: State)
    requires OneShot(settings, EMPTY.store, file, room) && Refused(settings, EMPTY.store, file, room).None?
    requires Pieces(file.data, settings.chunkSize) > 0
    requires req == Nth(file, settings.chunkSize, Pieces(file.data, settings.chunkSize) - 1)
    ensures Reached(settings, Doubled(before, req)) && before.store.rows == []
    ensures HoldsPieces(before.store, KeyOf(file), file.data, settings.chunkSize,
                        Pieces(file.data, settings.chunkSize) - 1)
  {
    var k := Pieces(file.data, settings.chunkSize) - 1;
    before := SentIsReached(settings, file, room, k);
    SentSoFar(settings, EMPTY.store, file, room, k);
    NthAccepted(settings, EMPTY.store, before.store, file, room, k);
    BothPassChecks(settings, before, req, room);
  }

  /** Any file that may be uploaded at all can be lost to its own last chunk: sent in
      order, and the last chunk twice at once, it ends under a row of its full length
      as its last piece alone. Only a file of one chunk survives. */
  lemma LastChunkTwice(settings: Settings, file: Request, room: Room) returns (s: State)
    requires OneShot(settings, EMPTY.store, file, room) && Refused(settings, EMPTY.store, file, room).None?
    ensures Reached(settings, s) && HasId(s.store.rows, IdOf(file))
    ensures forall i | 0 <= i < |s.store.rows| && s.store.rows[i].id == IdOf(file) ::
              s.store.rows[i].size == |file.data|
    ensures KeyOf(file) in s.store.disk
    ensures s.store.disk[KeyOf(file)] == file.data <==> Pieces(file.data, settings.chunkSize) == 1
  {
    AtLeastOnePiece(file.data, settings.chunkSize);
    var req := Nth(file, settings.chunkSize, Pieces(file.data, settings.chunkSize) - 1);
    var before := LastIsDoubled(settings, file, room, req);
    s := TwiceFrom(settings, before, req, room, KeyOf(file), file.data);
  }

  lemma TwiceFrom(settings: Settings, before: State, req: Request, room: Room, key: Key, data: Bytes)
    returns (s: State)
    requires Reached(settings, Doubled(before, req)) && IsPiece(req, key, data, settings.chunkSize) && IsLast(req)
    requires !HasId(before.store.rows, key.1) && DistinctIds(before.store.rows)
    requires HoldsPieces(before.store, key, data, settings.chunkSize, Pieces(data, settings.chunkSize) - 1)
    ensures Reached(settings, s) && HasId(s.store.rows, key.1)
    ensures forall i | 0 <= i < |s.store.rows| && s.store.rows[i].id == key.1 :: s.store.rows[i].size == |data|
    ensures key in s.store.disk
    ensures s.store.disk[key] == data <==> Pieces(data, settings.chunkSize) == 1
  {
    var both := Doubled(before, req);
    DoubledIsTidy(before, req, key, data, settings.chunkSize);
    var first := Finish(settings, both, 0, room);
    FinishIsReached(settings, both, 0, room);
    s := Finish(settings, first, 1, room);
    FinishIsReached(settings, first, 1, room);
    LateCopyTruncates(settings, both, 0, 1, room, key, data, first, s);
  }
}
