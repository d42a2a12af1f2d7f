/**
 The tables of every collection, and the operations that write them without
 interruption: creation and removal of a link (reverseShare.service.ts), opening
 a contribution (contribution.service.ts), the jobs (jobs.service.ts), and
 reopening (share.service.ts).
 */
module CollectionServices {
  import opened Wrappers
  import opened Collections

  datatype OpenError = NotFound | CollectionClosed | Forbidden | CollectionFull

  class CollectionStore {
    var shares: map<string, Container>
    var links: map<string, Link>
    var contributions: multiset<string>

    constructor ()
      ensures shares == map[] && links == map[] && contributions == multiset{}
    {
      shares, links, contributions := map[], map[], multiset{};
    }

    /** The rows of one collection. */
    function RowsOf(id: string): Rows
      reads this
    {
      Rows(if id in shares then Some(shares[id]) else None,
           if id in links then Some(links[id]) else None,
           contributions[id])
    }

    /** The foreign keys. */
    ghost predicate Valid()
      reads this
    {
      links.Keys <= shares.Keys && forall id | id in contributions :: id in shares
    }

    /** A collection with its link, not past its end. */
    predicate IsOpen(id: string, now: int)
      reads this
    {
      id in shares && shares[id].isCollection && id in links && now <= links[id].endsAt
    }

    /** create, past its checks of the request: container and link in one transaction. */
    method Create(token: string, terms: Terms, now: int) returns (ok: bool)
      requires Valid()
      modifies this
      ensures Valid()
      ensures ok <==> old(RowsOf(token)).container.None?
      ensures ok ==> RowsOf(token) == Born(terms, now)
      ensures forall id: string | !ok || id != token :: RowsOf(id) == old(RowsOf(id))
    {
      if token in links || token in shares {
        return false;
      }
      shares := shares[token := Container(true, true, terms.endsAt + terms.placeholder, now)];
      links := links[token := Link(terms.endsAt, terms.retention, terms.uses)];
      return true;
    }

    /** open: checks, claim, insert. */
    method Open(id: string, now: int, identified: bool) returns (r: Result<(), OpenError>)
      requires Valid()
      modifies this
      ensures Valid()
      ensures RowsOf(id) == Opened(old(RowsOf(id)), now, identified)
      ensures r == Err(NotFound) <==> id !in old(shares)
      ensures r == Err(CollectionClosed) <==>
                id in old(shares)
                && (!old(shares)[id].isCollection || id !in old(links) || old(links)[id].endsAt < now)
      ensures r == Err(Forbidden) <==> old(IsOpen(id, now)) && !identified
      ensures r == Err(CollectionFull) <==> old(IsOpen(id, now)) && identified && old(links)[id].remaining <= 0
      ensures r.Ok? <==> old(IsOpen(id, now)) && identified && old(links)[id].remaining > 0
      ensures r.Ok? ==>
                && links == old(links)[id := old(links)[id].(remaining := old(links)[id].remaining - 1)]
                && contributions == old(contributions) + multiset{id}
      ensures shares == old(shares)
      ensures r.Err? ==> links == old(links) && contributions == old(contributions)
    {
      if id !in shares {
        return Err(NotFound);
      }
      if !shares[id].isCollection || id !in links || links[id].endsAt < now {
        return Err(CollectionClosed);
      }
      if !identified {
        return Err(Forbidden);
      }
      var link := links[id];
      if link.remaining <= 0 {
        return Err(CollectionFull);
      }
      links := links[id := link.(remaining := link.remaining - 1)];
      contributions := contributions + multiset{id};
      return Ok(());
    }

    /** closeEndedCollections. */
    method CloseEndedCollections(now: int) returns (closed: nat)
      requires Valid()
      modifies this`shares
      ensures Valid()
      ensures forall id: string :: RowsOf(id) == Closed(old(RowsOf(id)), now)
      ensures shares.Keys == old(shares).Keys
      ensures forall id | id in shares ::
                shares[id] == if id in links && links[id].endsAt < now
                              then old(shares)[id].(expiration := links[id].endsAt + links[id].retention)
                              else old(shares)[id]
      ensures closed == |set id | id in links && NeedsClosing(old(RowsOf(id)), now)|
    {
      ghost var was := shares;
      NeedingIs(now);
      var ended := set id | id in links && id in shares && links[id].endsAt < now
                            && shares[id].expiration != DeathDate(links[id]);
      closed := |ended|;
      var todo := ended;
      while todo != {}
        invariant todo <= ended <= links.Keys && shares.Keys == was.Keys
        invariant forall id | id in shares ::
                    shares[id] == if id in ended && id !in todo
                                  then was[id].(expiration := DeathDate(links[id])) else was[id]
      {
        var id :| id in todo;
        shares := shares[id := shares[id].(expiration := DeathDate(links[id]))];
        todo := todo - {id};
      }
    }

    lemma NeedingIs(now: int)
      ensures (set id | id in links && NeedsClosing(RowsOf(id), now))
           == set id | id in links && id in shares && links[id].endsAt < now
                       && shares[id].expiration != DeathDate(links[id])
    {
    }

    /** deleteExpiredShares: the transfers with their links and contributions. */
    method DeleteExpiredShares(now: int, period: Period)
      requires Valid()
      modifies this
      ensures Valid()
      ensures forall id: string ::
                RowsOf(id) == if IsExpired(old(RowsOf(id)), now, period) then DELETED else old(RowsOf(id))
      ensures forall id: string :: id in shares <==>
                id in old(shares)
                && (period.value == -1 || old(shares)[id].expiration == 0
                    || now <= old(shares)[id].expiration + period.value * period.seconds)
      ensures forall id | id in shares ::
                shares[id] == old(shares)[id] && (id in links <==> id in old(links))
                && (id in links ==> links[id] == old(links)[id]) && contributions[id] == old(contributions)[id]
    {
      if period.value == -1 {
        return;
      }
      var threshold := now - Span(period);
      var expired := set id | id in shares && shares[id].expiration < threshold && shares[id].expiration != 0;
      DeleteAll(expired);
    }

    /** deleteUnfinishedShares. */
    method DeleteUnfinishedShares(cutoff: int)
      requires Valid()
      modifies this
      ensures Valid()
      ensures forall id: string ::
                RowsOf(id) == if IsUnfinished(old(RowsOf(id)), cutoff) then DELETED else old(RowsOf(id))
      ensures forall id: string :: id in shares <==>
                id in old(shares) && (old(shares)[id].uploadLocked || cutoff <= old(shares)[id].touched)
      ensures forall id | id in shares ::
                shares[id] == old(shares)[id] && (id in links <==> id in old(links))
                && (id in links ==> links[id] == old(links)[id]) && contributions[id] == old(contributions)[id]
    {
      var unfinished := set id | id in shares && !shares[id].uploadLocked && shares[id].touched < cutoff;
      DeleteAll(unfinished);
    }

    method DeleteAll(ids: set<string>)
      requires Valid() && ids <= shares.Keys
      modifies this
      ensures Valid()
      ensures shares == old(shares) - ids && links == old(links) - ids
      ensures forall id: string :: contributions[id] == if id in ids then 0 else old(contributions)[id]
      ensures forall id: string :: RowsOf(id) == if id in ids then DELETED else old(RowsOf(id))
    {
      var todo := ids;
      while todo != {}
        invariant todo <= ids && Valid()
        invariant todo <= shares.Keys
        invariant shares == old(shares) - (ids - todo) && links == old(links) - (ids - todo)
        invariant forall id: string ::
                    contributions[id] == if id in ids && id !in todo then 0 else old(contributions)[id]
      {
        var id :| id in todo;
        assert ids - (todo - {id}) == (ids - todo) + {id};
        shares := shares - {id};
        links := links - {id};
        contributions := contributions[id := 0];
        todo := todo - {id};
      }
    }

    /** remove, of the reverse share service. */
    method RemoveLink(id: string) returns (ok: bool)
      requires Valid()
      modifies this
      ensures Valid()
      ensures ok <==> old(RowsOf(id)).link.Some?
      ensures ok ==> RowsOf(id) == Unlinked(old(RowsOf(id)), DeathDate(old(RowsOf(id)).link.value))
      ensures ok ==>
                && links == old(links) - {id} && id in old(shares)
                && shares == old(shares)[id := old(shares)[id].(
                     expiration := old(links)[id].endsAt + old(links)[id].retention)]
      ensures contributions == old(contributions)
      ensures forall other: string | !ok || other != id :: RowsOf(other) == old(RowsOf(other))
    {
      if id !in links {
        return false;
      }
      shares := shares[id := shares[id].(expiration := DeathDate(links[id]))];
      links := links - {id};
      return true;
    }

    /** revertComplete. */
    method RevertComplete(id: string) returns (ok: bool)
      requires Valid()
      modifies this
      ensures Valid()
      ensures ok <==> id in old(shares) && !old(shares)[id].isCollection
      ensures RowsOf(id) == if ok then Unlocked(old(RowsOf(id))) else old(RowsOf(id))
      ensures shares == if ok then old(shares)[id := old(shares)[id].(uploadLocked := false)] else old(shares)
      ensures links == old(links) && contributions == old(contributions)
    {
      if id !in shares || shares[id].isCollection {
        return false;
      }
      shares := shares[id := shares[id].(uploadLocked := false)];
      return true;
    }
  }

  /** One uninterrupted run of the closing job, for one collection. */
  function Closed(rows: Rows, now: int): Rows {
    if NeedsClosing(rows, now) then WithExpiration(rows, DeathDate(rows.link.value)) else rows
  }

  /** One uninterrupted opening, refused or not. */
  function Opened(rows: Rows, now: int, identified: bool): Rows {
    if MayOpen(rows, now, identified) && Claimed(rows).Some?
    then Inserted(Claimed(rows).value).GetOr(rows)
    else rows
  }

  // ---------------------------------------------------------------------
  // Each service alone is steps of the relation
  // ---------------------------------------------------------------------

  /** The query that reads, and suspends a call. */
  lemma ReadStep(s: State, at: int, e: Event, call: Call, period: Period)
    requires s.now <= at && Effect(s.rows, at, e, period) == Outcome(s.rows, None, Some(call))
    requires call != OpeningClaimed
    ensures Step(s, at, e, period) == Some(s.(now := at, calls := s.calls + multiset{call}))
  {
  }

  /** The query that writes, and ends it. */
  lemma WriteStep(s: State, read: State, call: Call, rows: Rows, period: Period)
    requires read == s.(calls := s.calls + multiset{call}) && Resumed(s.rows, call) == Outcome(rows, Some(call), None)
    ensures Step(read, s.now, Resumes(call), period)
         == Some(s.(rows := rows,
                    died := if s.rows.container.Some? && rows.container.None? then Some(s.now) else s.died))
  {
    var o := Outcome(rows, Some(call), None);
    assert Effect(read.rows, s.now, Resumes(call), period) == o;
    Returned(s.calls, call, o);
  }

  lemma Returned(calls: multiset<Call>, call: Call, o: Outcome)
    requires o.ends == Some(call) && o.begins == None
    ensures call in calls + multiset{call} && Taken(calls + multiset{call}, o) == calls
  {
    assert calls + multiset{call} - multiset{call} == calls;
  }

  /** A call that reads and then writes: both queries run, and it leaves nothing
      behind but its write. */
  lemma TwoQueries(s: State, at: int, e: Event, call: Call, rows: Rows, period: Period)
    returns (read: State, done: State)
    requires s.now <= at && Effect(s.rows, at, e, period) == Outcome(s.rows, None, Some(call))
    requires Resumed(s.rows, call) == Outcome(rows, Some(call), None) && call != OpeningClaimed
    ensures Step(s, at, e, period) == Some(read) && Step(read, at, Resumes(call), period) == Some(done)
    ensures done == s.(rows := rows, now := at,
                       died := if s.rows.container.Some? && rows.container.None? then Some(at) else s.died)
  {
    read := s.(now := at, calls := s.calls + multiset{call});
    ReadStep(s, at, e, call, period);
    WriteStep(s.(now := at), read, call, rows, period);
    done := Step(read, at, Resumes(call), period).value;
  }

  /** The job: quiet, or its read and its write. */
  lemma ClosedIsARun(s: State, at: int, period: Period) returns (read: State, done: State)
    requires s.now <= at
    ensures Step(s, at, CloseReads, period) == Some(read)
    ensures if NeedsClosing(s.rows, at)
            then Step(read, at, Resumes(Closing(s.rows.link.value.endsAt + s.rows.link.value.retention)), period)
                 == Some(done)
            else done == read
    ensures done == s.(rows := Closed(s.rows, at), now := at)
  {
    if NeedsClosing(s.rows, at) {
      read, done := TwoQueries(s, at, CloseReads, Closing(DeathDate(s.rows.link.value)), Closed(s.rows, at), period);
    } else {
      QuietStep(s, at, CloseReads, period);
      read, done := s.(now := at), s.(now := at);
    }
  }

  /** Removal of the link, where there is one. */
  lemma RemovedIsARun(s: State, at: int, period: Period) returns (read: State, done: State)
    requires s.now <= at && s.rows.link.Some?
    ensures Step(s, at, RemoveReads, period) == Some(read)
    ensures Step(read, at, Resumes(Removing(s.rows.link.value.endsAt + s.rows.link.value.retention)), period)
            == Some(done)
    ensures done == s.(rows := Unlinked(s.rows, DeathDate(s.rows.link.value)), now := at)
  {
    var death := DeathDate(s.rows.link.value);
    assert Effect(s.rows, at, RemoveReads, period) == Outcome(s.rows, None, Some(Removing(death)));
    assert Unlinked(s.rows, death).container.Some? == s.rows.container.Some?;
    read, done := TwoQueries(s, at, RemoveReads, Removing(death), Unlinked(s.rows, death), period);
  }

  /** The sweep of what has expired. */
  lemma SweptIsARun(s: State, at: int, period: Period) returns (read: State, done: State)
    requires s.now <= at && IsExpired(s.rows, at, period)
    ensures Step(s, at, SweepReads, period) == Some(read) && Step(read, at, Resumes(Sweeping), period) == Some(done)
    ensures done == s.(rows := DELETED, now := at, died := Some(at))
  {
    read, done := TwoQueries(s, at, SweepReads, Sweeping, DELETED, period);
  }

  /** Opening: turned away at its checks, at the claim, or not. */
  lemma OpenIsARun(s: State, at: int, identified: bool, period: Period)
    returns (read: State, claimed: State, done: State)
    requires s.now <= at
    ensures Step(s, at, OpenReads(identified), period) == Some(read)
    ensures if MayOpen(s.rows, at, identified) then Step(read, at, Resumes(Opening), period) == Some(claimed)
            else claimed == read
    ensures if MayOpen(s.rows, at, identified) && Claimed(s.rows).Some?
            then Step(claimed, at, Resumes(OpeningClaimed), period) == Some(done)
            else done == claimed
    ensures done == s.(rows := Opened(s.rows, at, identified), now := at,
                       claims := if MayOpen(s.rows, at, identified) && Claimed(s.rows).Some? then s.claims + 1
                                 else s.claims)
  {
    if !MayOpen(s.rows, at, identified) {
      QuietStep(s, at, OpenReads(identified), period);
      read, claimed, done := s.(now := at), s.(now := at), s.(now := at);
    } else {
      ReadStep(s, at, OpenReads(identified), Opening, period);
      read := s.(now := at, calls := s.calls + multiset{Opening});
      claimed := OpenClaims(s, at, period, read);
      done := claimed;
      if Claimed(s.rows).Some? {
        done := claimed.(rows := Opened(s.rows, at, identified), calls := s.calls);
        WriteStep(claimed.(calls := s.calls), claimed, OpeningClaimed, done.rows, period);
      }
    }
  }

  /** The claim, once the look has let the call go on. */
  lemma OpenClaims(s: State, at: int, period: Period, read: State) returns (claimed: State)
    requires read == s.(now := at, calls := s.calls + multiset{Opening})
    ensures Step(read, at, Resumes(Opening), period) == Some(claimed)
    ensures claimed == if Claimed(s.rows).Some? then
                         s.(rows := Claimed(s.rows).value, now := at, claims := s.claims + 1,
                            calls := s.calls + multiset{OpeningClaimed})
                       else s.(now := at)
  {
    assert s.calls + multiset{Opening} - multiset{Opening} == s.calls;
    var o := Resumed(s.rows, Opening);
    assert Taken(read.calls, o) == if Claimed(s.rows).Some? then s.calls + multiset{OpeningClaimed} else s.calls;
    claimed := Step(read, at, Resumes(Opening), period).value;
  }
}
