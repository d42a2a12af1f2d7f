/**
 The paged import from the mounted archive (nasImport.service.ts): each call
 walks the selection again from the start and takes up where its cursor says.
 The walk, a sequence here, is the same at every call.
 */
module NasImports {
  import opened Wrappers

  const IMPORT_BATCH_SIZE: nat := 300

  datatype Found = Found(path: string, name: string, size: nat)

  /** Where a page starts reading: past the end, it reads nothing. */
  function From(walk: seq<Found>, cursor: nat): (from: nat)
    ensures from <= |walk|
  {
    if cursor < |walk| then cursor else |walk|
  }

  function Names(files: seq<Found>): set<string> {
    set f | f in files :: f.name
  }

  // ---------------------------------------------------------------------
  // What an import should take: the first occurrence of every new name
  // ---------------------------------------------------------------------

  predicate Seen(walk: seq<Found>, from: nat, to: nat, name: string)
    requires from <= to <= |walk|
  {
    exists j | from <= j < to :: walk[j].name == name
  }

  predicate IsFirstNew(walk: seq<Found>, from: nat, i: nat, known: set<string>)
    requires from <= i < |walk|
  {
    walk[i].name !in known && !Seen(walk, from, i, walk[i].name)
  }

  /** The places in [from, to) an import takes, knowing these names. */
  function Chosen(walk: seq<Found>, from: nat, to: nat, known: set<string>): (r: seq<nat>)
    requires from <= to <= |walk|
    ensures |r| <= to - from && InRange(r, to)
  {
    if to == from then []
    else Chosen(walk, from, to - 1, known) + if IsFirstNew(walk, from, to - 1, known) then [to - 1] else []
  }

  /** The names it passes over. */
  function Passed(walk: seq<Found>, from: nat, to: nat, known: set<string>): seq<string>
    requires from <= to <= |walk|
  {
    if to == from then []
    else Passed(walk, from, to - 1, known) + if IsFirstNew(walk, from, to - 1, known) then [] else [walk[to - 1].name]
  }

  predicate InRange(chosen: seq<nat>, n: nat) {
    forall i | 0 <= i < |chosen| :: chosen[i] < n
  }

  function Rows(walk: seq<Found>, chosen: seq<nat>): (r: seq<Found>)
    requires InRange(chosen, |walk|)
    ensures |r| == |chosen|
  {
    seq(|chosen|, i requires 0 <= i < |chosen| => walk[chosen[i]])
  }

  /** Exactly the first new occurrences, in walk order. */
  lemma {:induction false} ChosenExactly(walk: seq<Found>, from: nat, to: nat, known: set<string>, i: nat)
    requires from <= to <= |walk|
    ensures i in Chosen(walk, from, to, known) <==> from <= i < to && IsFirstNew(walk, from, i, known)
    ensures var c := Chosen(walk, from, to, known); forall a, b | 0 <= a < b < |c| :: c[a] < c[b]
  {
    if from < to {
      ChosenExactly(walk, from, to - 1, known, i);
    }
  }

  /** known' is known together with the names in [from, to). */
  ghost predicate Learned(walk: seq<Found>, from: nat, to: nat, known: set<string>, known': set<string>)
    requires from <= to <= |walk|
  {
    forall name: string :: name in known' <==> name in known || Seen(walk, from, to, name)
  }

  lemma {:induction false} FirstOccurrence(walk: seq<Found>, from: nat, to: nat, name: string) returns (i: nat)
    requires from <= to <= |walk| && Seen(walk, from, to, name)
    ensures from <= i < to && walk[i].name == name && !Seen(walk, from, i, name)
  {
    if Seen(walk, from, to - 1, name) {
      i := FirstOccurrence(walk, from, to - 1, name);
    } else {
      i := to - 1;
    }
  }

  /** The rows taken teach all the names read. */
  lemma ChosenLearns(walk: seq<Found>, from: nat, to: nat, known: set<string>)
    requires from <= to <= |walk|
    ensures Learned(walk, from, to, known, known + Names(Rows(walk, Chosen(walk, from, to, known))))
  {
    var chosen := Chosen(walk, from, to, known);
    var rows := Rows(walk, chosen);
    forall name: string
      ensures name in known + Names(rows) <==> name in known || Seen(walk, from, to, name)
    {
      if name in Names(rows) {
        var k :| 0 <= k < |rows| && rows[k].name == name;
        ChosenExactly(walk, from, to, known, chosen[k]);
        assert chosen[k] in chosen;
      }
      if name !in known && Seen(walk, from, to, name) {
        var i := FirstOccurrence(walk, from, to, name);
        ChosenExactly(walk, from, to, known, i);
        var k :| 0 <= k < |chosen| && chosen[k] == i;
        assert rows[k] in rows;
      }
    }
  }

  lemma SeenSplits(walk: seq<Found>, from: nat, mid: nat, to: nat, name: string)
    requires from <= mid <= to <= |walk|
    ensures Seen(walk, from, to, name) <==> Seen(walk, from, mid, name) || Seen(walk, mid, to, name)
  {
  }

  lemma SameFirstNew(walk: seq<Found>, from: nat, mid: nat, i: nat, known: set<string>, known': set<string>)
    requires from <= mid <= i < |walk| && Learned(walk, from, mid, known, known')
    ensures IsFirstNew(walk, from, i, known) <==> IsFirstNew(walk, mid, i, known')
  {
    SeenSplits(walk, from, mid, i, walk[i].name);
  }

  /** Reading [from, mid) and then [mid, to) with its names known takes the same. */
  lemma {:induction false} ChosenSplits(walk: seq<Found>, from: nat, mid: nat, to: nat,
                                        known: set<string>, known': set<string>)
    requires from <= mid <= to <= |walk| && Learned(walk, from, mid, known, known')
    ensures Chosen(walk, from, to, known) == Chosen(walk, from, mid, known) + Chosen(walk, mid, to, known')
  {
    if mid < to {
      ChosenSplits(walk, from, mid, to - 1, known, known');
      SameFirstNew(walk, from, mid, to - 1, known, known');
    }
  }

  lemma {:induction false} NothingNew(walk: seq<Found>, from: nat, to: nat, known: set<string>)
    requires from <= to <= |walk| && forall j | from <= j < to :: walk[j].name in known
    ensures Chosen(walk, from, to, known) == []
  {
    if from < to {
      NothingNew(walk, from, to - 1, known);
    }
  }

  // ---------------------------------------------------------------------
  // One page
  // ---------------------------------------------------------------------

  /** importBatch's answer, with the rows it created in place of their number. */
  datatype Page = Page(batch: seq<Found>, skipped: seq<string>, next: Option<nat>)

  function End(walk: seq<Found>, page: Page): nat {
    page.next.GetOr(|walk|)
  }

  /** The page reads from its cursor until the batch is full and a file is left,
      taking the first new occurrences. */
  predicate IsPage(walk: seq<Found>, cursor: nat, known: set<string>, limit: nat, page: Page) {
    var from, to := From(walk, cursor), End(walk, page);
    && from <= to <= |walk|
    && page.batch == Rows(walk, Chosen(walk, from, to, known))
    && page.skipped == Passed(walk, from, to, known)
    && |page.batch| <= limit
    && (page.next.Some? ==>
          to < |walk| && |page.batch| == limit && (limit > 0 ==> to > from && IsFirstNew(walk, from, to - 1, known)))
  }

  /** The cursor moves on by a full batch at least. */
  lemma NextIsAhead(walk: seq<Found>, cursor: nat, known: set<string>, limit: nat, page: Page)
    requires limit > 0 && IsPage(walk, cursor, known, limit, page) && page.next.Some?
    ensures cursor + limit <= page.next.value < |walk|
  {
    assert |Chosen(walk, From(walk, cursor), page.next.value, known)| == limit;
  }

  /** No page stops short of the frontier, and before it there is nothing new. */
  lemma ReachesFrontier(walk: seq<Found>, init: set<string>, known: set<string>, frontier: nat,
                        cursor: nat, limit: nat, page: Page)
    requires cursor <= frontier <= |walk| && limit > 0 && Learned(walk, 0, frontier, init, known)
    requires IsPage(walk, cursor, known, limit, page)
    ensures frontier <= End(walk, page) <= |walk|
    ensures Learned(walk, cursor, frontier, known, known) && Chosen(walk, cursor, frontier, known) == []
  {
    var to := End(walk, page);
    forall j | cursor <= j < frontier ensures walk[j].name in known {
      assert Seen(walk, 0, frontier, walk[j].name);
    }
    NothingNew(walk, cursor, if to < frontier then to else frontier, known);
    assert frontier <= to;
  }

  /** From any cursor up to the frontier, a page takes exactly what comes after it. */
  lemma PageAdvances(walk: seq<Found>, init: set<string>, known: set<string>, frontier: nat,
                     cursor: nat, limit: nat, page: Page)
    requires cursor <= frontier <= |walk| && limit > 0 && Learned(walk, 0, frontier, init, known)
    requires IsPage(walk, cursor, known, limit, page)
    ensures frontier <= End(walk, page) <= |walk|
    ensures Chosen(walk, 0, End(walk, page), init)
         == Chosen(walk, 0, frontier, init) + Chosen(walk, cursor, End(walk, page), known)
  {
    var to := End(walk, page);
    ReachesFrontier(walk, init, known, frontier, cursor, limit, page);
    ChosenSplits(walk, cursor, frontier, to, known, known);
    ChosenSplits(walk, 0, frontier, to, init, known);
  }

  // ---------------------------------------------------------------------
  // Any run of pages
  // ---------------------------------------------------------------------

  datatype Call = Call(cursor: nat, page: Page)

  function Imported(calls: seq<Call>): seq<Found> {
    if calls == [] then []
    else Imported(calls[..|calls| - 1]) + calls[|calls| - 1].page.batch
  }

  /** How far into the walk the pages have read. */
  function Frontier(walk: seq<Found>, calls: seq<Call>): nat {
    if calls == [] then 0
    else
      var before, end := Frontier(walk, calls[..|calls| - 1]), End(walk, calls[|calls| - 1].page);
      if before <= end then end else before
  }

  /** Each call starts at 0 or at a cursor an earlier page returned, and knows
      what was there before and what was imported since. */
  predicate Follows(walk: seq<Found>, init: set<string>, limit: nat, calls: seq<Call>) {
    calls == [] ||
    var n := |calls| - 1;
    && Follows(walk, init, limit, calls[..n])
    && IsPage(walk, calls[n].cursor, init + Names(Imported(calls[..n])), limit, calls[n].page)
    && (calls[n].cursor == 0 || exists i | 0 <= i < n :: calls[i].page.next == Some(calls[n].cursor))
  }

  lemma {:induction false} FrontierCovers(walk: seq<Found>, calls: seq<Call>, i: nat)
    requires i < |calls|
    ensures End(walk, calls[i].page) <= Frontier(walk, calls)
  {
    if i < |calls| - 1 {
      FrontierCovers(walk, calls[..|calls| - 1], i);
    }
  }

  lemma CursorIsBehind(walk: seq<Found>, init: set<string>, limit: nat, calls: seq<Call>)
    requires calls != [] && Follows(walk, init, limit, calls)
    ensures calls[|calls| - 1].cursor <= Frontier(walk, calls[..|calls| - 1])
  {
    var n := |calls| - 1;
    if calls[n].cursor != 0 {
      var i :| 0 <= i < n && calls[i].page.next == Some(calls[n].cursor);
      FrontierCovers(walk, calls[..n], i);
    }
  }

  lemma RowsConcat(walk: seq<Found>, a: seq<nat>, b: seq<nat>)
    requires InRange(a, |walk|) && InRange(b, |walk|)
    ensures InRange(a + b, |walk|) && Rows(walk, a + b) == Rows(walk, a) + Rows(walk, b)
  {
  }

  /** Pages in any order the cursors allow, some of them sent again: together
      they have imported what a single pass up to the frontier imports. */
  lemma {:induction false} PagedIsOnePass(walk: seq<Found>, init: set<string>, limit: nat, calls: seq<Call>)
    requires limit > 0 && Follows(walk, init, limit, calls)
    ensures Frontier(walk, calls) <= |walk|
    ensures Imported(calls) == Rows(walk, Chosen(walk, 0, Frontier(walk, calls), init))
    ensures Learned(walk, 0, Frontier(walk, calls), init, init + Names(Imported(calls)))
  {
    if calls == [] {
      assert Names(Imported(calls)) == {};
    } else {
      var n := |calls| - 1;
      PagedIsOnePass(walk, init, limit, calls[..n]);
      CursorIsBehind(walk, init, limit, calls);
      var k, page, known := Frontier(walk, calls[..n]), calls[n].page, init + Names(Imported(calls[..n]));
      PageAdvances(walk, init, known, k, calls[n].cursor, limit, page);
      RowsConcat(walk, Chosen(walk, 0, k, init), Chosen(walk, calls[n].cursor, End(walk, page), known));
      ChosenLearns(walk, 0, End(walk, page), init);
    }
  }

  /** Once some page said it was the last, everything has been imported. */
  lemma DoneIsEverything(walk: seq<Found>, init: set<string>, limit: nat, calls: seq<Call>, i: nat)
    requires limit > 0 && Follows(walk, init, limit, calls) && i < |calls| && calls[i].page.next.None?
    ensures Imported(calls) == Rows(walk, Chosen(walk, 0, |walk|, init))
  {
    PagedIsOnePass(walk, init, limit, calls);
    FrontierCovers(walk, calls, i);
    var k := Frontier(walk, calls);
    assert k == |walk|;
    AllChosen(walk, init, k, Imported(calls));
  }

  lemma AllChosen(walk: seq<Found>, init: set<string>, k: nat, imported: seq<Found>)
    requires k == |walk| && imported == Rows(walk, Chosen(walk, 0, k, init))
    ensures imported == Rows(walk, Chosen(walk, 0, |walk|, init))
  {
  }

  // ---------------------------------------------------------------------
  // The service
  // ---------------------------------------------------------------------

  datatype NasError = NotConfigured | ShareNotFound

  datatype NasShare = NasShare(files: seq<Found>, hasNasImportedFiles: bool)

  class NasImportService {
    const enabled: bool
    var shares: map<string, NasShare>

    constructor (enabled: bool, shares: map<string, NasShare>)
      ensures this.enabled == enabled && this.shares == shares
    {
      this.enabled, this.shares := enabled, shares;
    }

    method ImportBatch(shareId: string, walk: seq<Found>, cursor: nat) returns (r: Result<Page, NasError>)
      modifies this
      ensures !enabled ==> r == Err(NotConfigured)
      ensures enabled && shareId !in old(shares) ==> r == Err(ShareNotFound)
      ensures r.Err? ==> shares == old(shares)
      ensures r.Ok? ==> |r.value.batch| <= 300 && (r.value.next.Some? ==> |r.value.batch| == 300)
      ensures r.Ok? <==> enabled && shareId in old(shares)
      ensures r.Ok? ==>
                && IsPage(walk, cursor, Names(old(shares)[shareId].files), IMPORT_BATCH_SIZE, r.value)
                && shares == old(shares)[shareId := NasShare(
                     old(shares)[shareId].files + r.value.batch,
                     old(shares)[shareId].hasNasImportedFiles || r.value.batch != [])]
    {
      if !enabled {
        return Err(NotConfigured);
      }
      if shareId !in shares {
        return Err(ShareNotFound);
      }
      var share := shares[shareId];
      var page := Walked(walk, cursor, Names(share.files), IMPORT_BATCH_SIZE);
      if |page.batch| > 0 {
        shares := shares[shareId := NasShare(share.files + page.batch, share.hasNasImportedFiles)];
        if !share.hasNasImportedFiles {
          shares := shares[shareId := shares[shareId].(hasNasImportedFiles := true)];
        }
      }
      assert page.batch == [] ==> share.files + page.batch == share.files;
      return Ok(page);
    }

    /** The loop over the walk. */
    method Walked(walk: seq<Found>, cursor: nat, names: set<string>, limit: nat) returns (page: Page)
      ensures IsPage(walk, cursor, names, limit, page)
    {
      var existingNames := names;
      var batch: seq<Found>, skipped: seq<string> := [], [];
      ghost var from := From(walk, cursor);
      var index := 0;
      while index < |walk|
        invariant 0 <= index <= |walk|
        invariant index < from ==> batch == [] && skipped == [] && existingNames == names
        invariant index >= from ==> Reading(walk, from, index, names, limit, batch, skipped, existingNames)
      {
        if index >= cursor {
          if |batch| >= limit {
            return Page(batch, skipped, Some(index));
          }
          ReadOne(walk, from, index, names, limit, batch, skipped, existingNames);
          if walk[index].name in existingNames {
            skipped := skipped + [walk[index].name];
          } else {
            batch := batch + [walk[index]];
            existingNames := existingNames + {walk[index].name};
          }
        }
        index := index + 1;
      }
      return Page(batch, skipped, None);
    }
  }

  /** The loop's variables when it comes to this index. */
  ghost predicate Reading(walk: seq<Found>, from: nat, index: nat, names: set<string>, limit: nat,
                          batch: seq<Found>, skipped: seq<string>, existing: set<string>)
    requires from <= index <= |walk|
  {
    && batch == Rows(walk, Chosen(walk, from, index, names)) && skipped == Passed(walk, from, index, names)
    && Learned(walk, from, index, names, existing) && |batch| <= limit
    && (|batch| == limit > 0 ==> from < index && IsFirstNew(walk, from, index - 1, names))
  }

  lemma ReadOne(walk: seq<Found>, from: nat, index: nat, names: set<string>, limit: nat,
                batch: seq<Found>, skipped: seq<string>, existing: set<string>)
    requires from <= index < |walk| && Reading(walk, from, index, names, limit, batch, skipped, existing)
    requires |batch| < limit
    ensures if walk[index].name in existing then
              Reading(walk, from, index + 1, names, limit, batch, skipped + [walk[index].name], existing)
            else
              Reading(walk, from, index + 1, names, limit, batch + [walk[index]], skipped,
                      existing + {walk[index].name})
  {
  }

  lemma NamesConcat(a: seq<Found>, b: seq<Found>)
    ensures Names(a + b) == Names(a) + Names(b)
  {
    forall n | n in Names(a) + Names(b) ensures n in Names(a + b) {
      var g :| (g in a || g in b) && g.name == n;
      assert g in a + b;
    }
  }

  lemma FollowsOneMore(walk: seq<Found>, init: set<string>, limit: nat, calls: seq<Call>, call: Call)
    requires Follows(walk, init, limit, calls)
    requires IsPage(walk, call.cursor, init + Names(Imported(calls)), limit, call.page)
    requires call.cursor == 0 || (calls != [] && calls[|calls| - 1].page.next == Some(call.cursor))
    ensures Follows(walk, init, limit, calls + [call])
    ensures Imported(calls + [call]) == Imported(calls) + call.page.batch
  {
    assert (calls + [call])[..|calls|] == calls;
    assert calls != [] ==> (calls + [call])[|calls| - 1] == calls[|calls| - 1];
  }

  /** The client between two calls: it has a cursor, or it is done. */
  ghost predicate Paging(walk: seq<Found>, init: set<string>, limit: nat, calls: seq<Call>, cursor: Option<nat>) {
    && Follows(walk, init, limit, calls)
    && match cursor
       case Some(c) => c <= |walk| && (c == 0 || (calls != [] && calls[|calls| - 1].page.next == cursor))
       case None => calls != [] && calls[|calls| - 1].page.next.None?
  }

  lemma PagingGoesOn(walk: seq<Found>, init: set<string>, limit: nat, calls: seq<Call>, cursor: nat, page: Page)
    requires limit > 0 && Paging(walk, init, limit, calls, Some(cursor))
    requires IsPage(walk, cursor, init + Names(Imported(calls)), limit, page)
    ensures Paging(walk, init, limit, calls + [Call(cursor, page)], page.next)
    ensures Imported(calls + [Call(cursor, page)]) == Imported(calls) + page.batch
    ensures page.next.Some? ==> cursor < page.next.value <= |walk|
  {
    FollowsOneMore(walk, init, limit, calls, Call(cursor, page));
    if page.next.Some? {
      NextIsAhead(walk, cursor, init + Names(Imported(calls)), limit, page);
    }
  }

  lemma TurnDone(walk: seq<Found>, files: seq<Found>, calls: seq<Call>, cursor: nat, page: Page, before: seq<Found>)
    requires Paging(walk, Names(files), IMPORT_BATCH_SIZE, calls, Some(cursor)) && before == files + Imported(calls)
    requires IsPage(walk, cursor, Names(before), IMPORT_BATCH_SIZE, page)
    ensures Paging(walk, Names(files), IMPORT_BATCH_SIZE, calls + [Call(cursor, page)], page.next)
    ensures before + page.batch == files + Imported(calls + [Call(cursor, page)])
    ensures page.next.Some? ==> cursor < page.next.value <= |walk|
  {
    NamesConcat(files, Imported(calls));
    PagingGoesOn(walk, Names(files), IMPORT_BATCH_SIZE, calls, cursor, page);
  }

  /** One turn of the client's loop. */
  method NextPage(service: NasImportService, shareId: string, walk: seq<Found>, cursor: nat,
                  ghost files: seq<Found>, ghost calls: seq<Call>) returns (next: Option<nat>, ghost calls': seq<Call>)
    requires service.enabled && shareId in service.shares
    requires service.shares[shareId].files == files + Imported(calls)
    requires Paging(walk, Names(files), IMPORT_BATCH_SIZE, calls, Some(cursor))
    modifies service
    ensures shareId in service.shares && service.shares[shareId].files == files + Imported(calls')
    ensures Paging(walk, Names(files), IMPORT_BATCH_SIZE, calls', next)
    ensures next.Some? ==> cursor < next.value <= |walk|
  {
    ghost var before := service.shares[shareId].files;
    var r := service.ImportBatch(shareId, walk, cursor);
    TurnDone(walk, files, calls, cursor, r.value, before);
    return r.value.next, calls + [Call(cursor, r.value)];
  }

  /** The client's loop: it ends, and the selection is then imported once. */
  method ImportSelection(service: NasImportService, shareId: string, walk: seq<Found>)
    requires service.enabled && shareId in service.shares
    modifies service
    ensures shareId in service.shares
    ensures var files := old(service.shares)[shareId].files;
            service.shares[shareId].files == files + Rows(walk, Chosen(walk, 0, |walk|, Names(files)))
  {
    ghost var files := service.shares[shareId].files;
    ghost var calls: seq<Call> := [];
    var cursor := Some(0);
    while cursor.Some?
      invariant shareId in service.shares && service.shares[shareId].files == files + Imported(calls)
      invariant Paging(walk, Names(files), IMPORT_BATCH_SIZE, calls, cursor)
      decreases cursor.Some?, |walk| - cursor.GetOr(0)
    {
      cursor, calls := NextPage(service, shareId, walk, cursor.value, files, calls);
    }
    DoneIsEverything(walk, Names(files), IMPORT_BATCH_SIZE, calls, |calls| - 1);
  }
}
