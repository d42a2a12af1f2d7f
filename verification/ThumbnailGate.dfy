/**
 The gate that keeps thumbnail extractions to four at a time
 (thumbnail.service.ts): a counter, a queue of waiting calls, and a slot that is
 handed straight to the next waiter.
 */
module ThumbnailGate {
  import opened Wrappers

  const MAX_CONCURRENT_THUMBNAILS: nat := 4

  type Job = nat

  /** The two private fields of the service. */
  datatype Gate = Gate(activeCount: int, queue: seq<Job>)

  /** acquireSlot: whether the call goes on at once, or waits. */
  function Acquired(gate: Gate, job: Job): (Gate, bool) {
    if gate.activeCount < MAX_CONCURRENT_THUMBNAILS then (gate.(activeCount := gate.activeCount + 1), true)
    else (gate.(queue := gate.queue + [job]), false)
  }

  /** releaseSlot: the waiter that is let through, if any. */
  function Released(gate: Gate): (Gate, Option<Job>) {
    if gate.queue != [] then (gate.(queue := gate.queue[1..]), Some(gate.queue[0]))
    else (gate.(activeCount := gate.activeCount - 1), None)
  }

  // ---------------------------------------------------------------------
  // Every order of arrivals and completions
  // ---------------------------------------------------------------------

  /** arrived and started list the jobs in the order they reached the gate and
      were let through it; a handed-off job holds its slot from the hand-off on. */
  datatype State = State(gate: Gate, held: set<Job>, arrived: seq<Job>, started: seq<Job>, settled: set<Job>)

  /** Settling comes with success and failure alike. */
  datatype Event = Arrives(job: Job) | Settles(job: Job)

  function Step(s: State, e: Event): Option<State> {
    match e
    case Arrives(job) =>
      if job in s.arrived then None
      else
        var (gate, goes) := Acquired(s.gate, job);
        Some(State(gate, if goes then s.held + {job} else s.held, s.arrived + [job],
                   if goes then s.started + [job] else s.started, s.settled))
    case Settles(job) =>
      if job !in s.held then None
      else
        var (gate, next) := Released(s.gate);
        Some(State(gate, if next.Some? then s.held - {job} + {next.value} else s.held - {job}, s.arrived,
                   if next.Some? then s.started + [next.value] else s.started, s.settled + {job}))
  }

  const IDLE := State(Gate(0, []), {}, [], [], {})

  function After(run: seq<Event>): Option<State> {
    if run == [] then Some(IDLE)
    else
      match After(run[..|run| - 1])
      case None => None
      case Some(s) => Step(s, run[|run| - 1])
  }

  predicate Distinct(jobs: seq<Job>) {
    forall i, j | 0 <= i < j < |jobs| :: jobs[i] != jobs[j]
  }

  /** The counter is the number of slots held, never above four, with a queue
      only when all are; jobs are let through in the order they came. */
  ghost predicate Sound(s: State) {
    && s.gate.activeCount == |s.held| <= MAX_CONCURRENT_THUMBNAILS
    && (s.gate.queue != [] ==> |s.held| == MAX_CONCURRENT_THUMBNAILS)
    && s.arrived == s.started + s.gate.queue && Distinct(s.arrived)
    && (forall job :: job in s.held <==> job in s.started && job !in s.settled)
    && (forall job | job in s.settled :: job in s.started)
  }

  lemma ArrivalKeepsSound(s: State, job: Job, s': State)
    requires Sound(s) && Step(s, Arrives(job)) == Some(s')
    ensures Sound(s')
  {
    assert job !in s.started && job !in s.gate.queue;
    assert s'.arrived == s'.started + s'.gate.queue by {
      if s.gate.activeCount < MAX_CONCURRENT_THUMBNAILS {
        assert s.gate.queue == [];
      } else {
        assert s.arrived + [job] == s.started + (s.gate.queue + [job]);
      }
    }
  }

  lemma SettlingKeepsSound(s: State, job: Job, s': State)
    requires Sound(s) && Step(s, Settles(job)) == Some(s')
    ensures Sound(s')
  {
    if s.gate.queue != [] {
      var next := s.gate.queue[0];
      assert s.arrived == (s.started + [next]) + s.gate.queue[1..];
      assert s.arrived[|s.started|] == next;
      assert next !in s.started by {
        forall i | 0 <= i < |s.started| ensures s.started[i] != next {
          assert s.arrived[i] == s.started[i];
        }
      }
      assert next !in s.held && job in s.held;
      assert |s.held - {job} + {next}| == |s.held|;
    }
  }

  lemma {:induction false} RunIsSound(run: seq<Event>, s: State)
    requires After(run) == Some(s)
    ensures Sound(s)
  {
    if run != [] {
      var before := After(run[..|run| - 1]).value;
      RunIsSound(run[..|run| - 1], before);
      match run[|run| - 1]
      case Arrives(job) => ArrivalKeepsSound(before, job, s);
      case Settles(job) => SettlingKeepsSound(before, job, s);
    }
  }

  /** At most four hold a slot, and first come is first served. */
  lemma FourInOrder(run: seq<Event>, s: State)
    requires After(run) == Some(s)
    ensures s.gate.activeCount == |s.held| <= 4
    ensures s.started <= s.arrived
    ensures s.gate.queue == s.arrived[|s.started|..]
    ensures |s.started| < |s.arrived| ==> |s.held| == 4
  {
    RunIsSound(run, s);
  }

  /** No slot is lost: while a job is unsettled some job holds a slot, and when
      the last settles the counter is back at zero. */
  lemma NoSlotIsLost(run: seq<Event>, s: State)
    requires After(run) == Some(s)
    ensures s.held != {} <==> exists job :: job in s.arrived && job !in s.settled
    ensures (forall job | job in s.arrived :: job in s.settled) <==> s.gate == Gate(0, [])
  {
    RunIsSound(run, s);
    if job :| job in s.arrived && job !in s.settled {
      if job in s.gate.queue {
        assert |s.held| == 4;
      } else {
        assert job in s.held;
      }
    }
    if s.held != {} {
      var job :| job in s.held;
      assert job in s.arrived && job !in s.settled;
    }
    if s.gate == Gate(0, []) {
      assert s.held == {};
    }
    if forall job | job in s.arrived :: job in s.settled {
      assert s.held == {};
      assert s.gate.queue == [];
    }
  }

  function Unsettled(s: State): int {
    |s.arrived| - |s.settled|
  }

  /** Every completion is possible and leaves one job fewer, so that as many
      completions, in any order, empty the gate. */
  lemma SettlingCounts(run: seq<Event>, s: State, job: Job)
    requires After(run) == Some(s) && job in s.held
    ensures var s' := Step(s, Settles(job));
            s'.Some? && Unsettled(s'.value) == Unsettled(s) - 1
  {
    RunIsSound(run, s);
  }

  // ---------------------------------------------------------------------
  // The service
  // ---------------------------------------------------------------------

  class ThumbnailService {
    var activeCount: int
    var queue: seq<Job>

    constructor ()
      ensures Now() == Gate(0, [])
    {
      activeCount, queue := 0, [];
    }

    function Now(): Gate
      reads this
    {
      Gate(activeCount, queue)
    }

    method AcquireSlot(job: Job) returns (goes: bool)
      modifies this
      ensures (Now(), goes) == Acquired(old(Now()), job)
      ensures goes ==> activeCount <= MAX_CONCURRENT_THUMBNAILS && queue == old(queue)
      ensures !goes ==> activeCount == old(activeCount) >= MAX_CONCURRENT_THUMBNAILS && queue[|queue| - 1] == job
    {
      if activeCount < MAX_CONCURRENT_THUMBNAILS {
        activeCount := activeCount + 1;
        return true;
      }
      queue := queue + [job];
      return false;
    }

    method ReleaseSlot() returns (next: Option<Job>)
      modifies this
      ensures (Now(), next) == Released(old(Now()))
      ensures next.Some? ==> old(queue) == [next.value] + queue && activeCount == old(activeCount)
      ensures next.None? ==> queue == [] && activeCount == old(activeCount) - 1
    {
      if queue != [] {
        next := Some(queue[0]);
        queue := queue[1..];
      } else {
        next := None;
        activeCount := activeCount - 1;
      }
    }
  }
}
