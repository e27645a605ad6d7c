/** The download scheduler: a bounded pool of network jobs, highest priority first, and
    per device a chain of writes, one at a time.

    The network half is a class whose methods are the events the pool reacts to.  A
    work function is asynchronous: it starts when it is called and settles later, in
    any order and with any result. */
module NetworkScheduling {
  /** A queued job; `order` numbers the jobs as they were submitted. */
  datatype Job = Job(priority: int, order: nat)

  /** The comparison function of the sort. */
  predicate Before(a: Job, b: Job) { a.priority > b.priority || (a.priority == b.priority && a.order < b.order) }

  ghost predicate Sorted(queue: seq<Job>) { forall i, j :: 0 <= i < j < |queue| ==> Before(queue[i], queue[j]) }

  /** Jobs of one priority start in the order in which they were submitted. */
  ghost predicate Fair(started: seq<Job>) {
    forall i, j :: 0 <= i < j < |started| && started[i].priority == started[j].priority ==>
      started[i].order < started[j].order
  }

  ghost function Jobs(queue: seq<Job>): set<Job> { set job | job in queue }

  lemma NoJobs()
    ensures Jobs([]) == {}
  {
  }

  lemma OneMore(queue: seq<Job>, n: nat)
    requires n < |queue|
    ensures queue[..n + 1] == queue[..n] + [queue[n]] && queue[n..][0] == queue[n] && queue[n..][1..] == queue[n + 1..]
    ensures Jobs(queue[..n + 1]) == Jobs(queue[..n]) + {queue[n]}
  {
    assert queue[..n + 1] == queue[..n] + [queue[n]];
  }

  /** The first of the queue may start next. */
  lemma FirstInTurn(queue: seq<Job>, started: seq<Job>)
    requires queue != [] && Sorted(queue) && Fair(started)
    requires forall a, b :: a in started && b in queue && a.priority == b.priority ==> a.order < b.order
    ensures Sorted(queue[1..]) && Fair(started + [queue[0]])
    ensures forall b :: b in queue[1..] && b.priority == queue[0].priority ==> queue[0].order < b.order
  {
    assert queue[0] in queue;
    forall i | 0 <= i < |started| && started[i].priority == queue[0].priority
      ensures started[i].order < queue[0].order
    {
      assert started[i] in started;
    }
  }

  /** In the queue the urgent jobs come first, and of equally urgent ones the older. */
  lemma UrgentFirst(queue: seq<Job>, n: nat)
    requires Sorted(queue) && n <= |queue|
    ensures forall a, b :: a in queue[..n] && b in queue[n..] ==>
              a.priority > b.priority || (a.priority == b.priority && a.order < b.order)
  {
    forall a, b | a in queue[..n] && b in queue[n..]
      ensures a.priority > b.priority || (a.priority == b.priority && a.order < b.order)
    {
      var i :| 0 <= i < n && queue[i] == a;
      var j :| 0 <= j < |queue| - n && queue[n..][j] == b;
      assert Before(queue[i], queue[n + j]);
    }
  }

  lemma FirstOnly(queue: seq<Job>)
    requires queue != []
    ensures queue[..1] == [queue[0]] && Jobs(queue[..1]) == {queue[0]}
  {
  }

  class NetworkPool {
    const limit: nat
    var activeNetwork: nat
    var order: nat
    var networkQueue: seq<Job>
    ghost var running: set<Job>
    ghost var started: seq<Job>    // in the order of their starts
    ghost var submitted: seq<Job>

    /** What holds whatever the pool is in the middle of. */
    ghost predicate Consistent()
      reads this
    {
      && activeNetwork == |running| <= limit && 0 < limit
      && Sorted(networkQueue) && order == |submitted|
      && (forall k :: 0 <= k < |submitted| ==> submitted[k].order == k)
      && multiset(submitted) == multiset(started) + multiset(networkQueue)
      && (forall job :: job in running ==> job in started)
    }

    /** Same-priority jobs that wait are younger than those that have started. */
    ghost predicate InTurn()
      reads this
    {
      && Fair(started)
      && forall a, b :: a in started && b in networkQueue && a.priority == b.priority ==> a.order < b.order
    }

    /** Between events: a job waits only while the pool is full. */
    ghost predicate Valid()
      reads this
    {
      Consistent() && InTurn() && (networkQueue != [] ==> activeNetwork == limit)
    }

    constructor (networkConcurrency: nat)
      requires 0 < networkConcurrency
      ensures Valid() && limit == networkConcurrency && submitted == [] && running == {}
    {
      limit, activeNetwork, order, networkQueue := networkConcurrency, 0, 0, [];
      running, started, submitted := {}, [], [];
    }

    /** Starts the first jobs of the queue while there is room. */
    method DrainNetwork()
      requires Consistent() && InTurn()
      modifies this
      ensures Valid() && submitted == old(submitted) && order == old(order)
      ensures var room := limit - old(activeNetwork);
              var n := if room < |old(networkQueue)| then room else |old(networkQueue)|;
              && networkQueue == old(networkQueue)[n..] && started == old(started) + old(networkQueue)[..n]
              && activeNetwork == old(activeNetwork) + n
              && running == old(running) + Jobs(old(networkQueue)[..n])
      // a job that starts is at least as urgent as each one that waits, and older where they are equal
      ensures forall a, b :: a in started[|old(started)|..] && b in networkQueue ==>
                a.priority > b.priority || (a.priority == b.priority && a.order < b.order)
    {
      hide Consistent, InTurn, Jobs;
      Bounded();
      ghost var queue := networkQueue;
      assert Jobs([]) == {} by { NoJobs(); }
      ghost var n := 0;
      while activeNetwork < limit && networkQueue != []
        invariant Consistent() && InTurn()
        invariant n <= |old(networkQueue)| && networkQueue == old(networkQueue)[n..]
        invariant started == old(started) + old(networkQueue)[..n]
        invariant activeNetwork == old(activeNetwork) + n <= limit
        invariant running == old(running) + Jobs(old(networkQueue)[..n])
        invariant submitted == old(submitted) && order == old(order)
        decreases |networkQueue|
      {
        OneMore(old(networkQueue), n);
        StartFirst();
        n := n + 1;
      }
      UrgentFirst(queue, n);
      assert started[|old(started)|..] == queue[..n];
    }

    lemma Bounded()
      requires Consistent()
      ensures activeNetwork == |running| <= limit && 0 < limit && Sorted(networkQueue)
    {
    }

    lemma Standing()
      requires Valid()
      ensures Consistent() && InTurn() && activeNetwork == |running| <= limit
      ensures (networkQueue != [] ==> activeNetwork == limit)
    {
    }

    /** Takes the first job out of the queue and calls its work. */
    method StartFirst()
      requires Consistent() && InTurn() && networkQueue != [] && activeNetwork < limit
      modifies this`activeNetwork, this`networkQueue, this`running, this`started
      ensures Consistent() && InTurn()
      ensures networkQueue == old(networkQueue)[1..] && started == old(started) + [old(networkQueue)[0]]
      ensures activeNetwork == old(activeNetwork) + 1 && running == old(running) + {old(networkQueue)[0]}
    {
      hide Fair, Sorted;
      var pending := networkQueue[0];
      FirstIsNew();
      FirstInTurn(networkQueue, started);
      networkQueue := networkQueue[1..];
      activeNetwork := activeNetwork + 1;
      running, started := running + {pending}, started + [pending];
      assert old(networkQueue) == [pending] + networkQueue;
    }

    /** A queued job has not started before. */
    lemma FirstIsNew()
      requires Consistent() && networkQueue != []
      ensures networkQueue[0] !in started && networkQueue[0] !in running
    {
      var first := networkQueue[0];
      if first in started {
        assert multiset(started)[first] >= 1 && multiset(networkQueue)[first] >= 1;
        assert multiset(submitted)[first] >= 2;
        TwiceMeansTwoPlaces(submitted, first);
        assert false;
      }
    }

    /** `scheduleNetwork` */
    method ScheduleNetwork(priority: int)
      requires Valid()
      modifies this
      ensures Valid()
      ensures submitted == old(submitted) + [Job(priority, old(order))]
      ensures old(activeNetwork) < limit ==>
                started == old(started) + [Job(priority, old(order))] && networkQueue == old(networkQueue)
      ensures old(activeNetwork) == limit ==> started == old(started) && running == old(running)
    {
      Bounded();
      var job := Job(priority, order);
      NewIsYoungest(job);
      hide *;
      var queue := InsertSorted(networkQueue, job);
      Submit(job, queue);
      if old(activeNetwork) < limit { FirstOnly([job]); }
      DrainNetwork();
    }

    /** The queue with the new job in its place. */
    method Submit(job: Job, queue: seq<Job>)
      requires Consistent() && InTurn() && job.order == order
      requires Sorted(queue) && multiset(queue) == multiset(networkQueue) + multiset{job}
      requires forall other :: other in queue <==> other in networkQueue || other == job
      requires forall other :: other in networkQueue || other in started ==> other.order < order
      modifies this`networkQueue, this`submitted, this`order
      ensures Consistent() && InTurn()
      ensures networkQueue == queue && submitted == old(submitted) + [job] && order == old(order) + 1
    {
      networkQueue := queue;
      submitted, order := submitted + [job], order + 1;
    }

    lemma NewIsYoungest(job: Job)
      requires Consistent() && job.order == order
      ensures forall other :: other in networkQueue || other in started ==> other.order < order
    {
      forall other | other in networkQueue || other in started ensures other.order < order {
        assert other in multiset(submitted);
        var k :| 0 <= k < |submitted| && submitted[k] == other;
      }
    }

    /** A running job's work settles, with whatever result; the next job starts at once. */
    method Settle(ghost job: Job)
      requires Valid() && job in running
      modifies this
      ensures Valid() && submitted == old(submitted)
      ensures old(networkQueue) == [] ==>
                networkQueue == [] && running == old(running) - {job} && started == old(started)
      ensures old(networkQueue) != [] ==>
                && networkQueue == old(networkQueue)[1..] && running == old(running) - {job} + {old(networkQueue)[0]}
                && started == old(started) + [old(networkQueue)[0]]
                && forall b :: b in networkQueue ==>
                     var a := old(networkQueue)[0];
                     a.priority > b.priority || (a.priority == b.priority && a.order < b.order)
    {
      hide *;
      Standing();
      Release(job);
      DrainNetwork();
      if old(networkQueue) != [] { FirstOnly(old(networkQueue)); } else { NoJobs(); }
    }

    method Release(ghost job: Job)
      requires Consistent() && InTurn() && job in running
      modifies this`activeNetwork, this`running
      ensures Consistent() && InTurn()
      ensures activeNetwork == old(activeNetwork) - 1 && running == old(running) - {job}
    {
      activeNetwork := activeNetwork - 1;
      running := running - {job};
    }

    /** Once no more jobs come, every one of them has started, and all settle. */
    method RunOut()
      requires Valid()
      modifies this
      ensures Valid() && networkQueue == [] && running == {} && activeNetwork == 0
      ensures submitted == old(submitted) && multiset(started) == multiset(submitted) && Fair(started)
    {
      while activeNetwork > 0
        invariant Valid() && submitted == old(submitted)
        decreases |networkQueue| + activeNetwork
      {
        SettleSome();
      }
    }

    /** Some running job settles. */
    method SettleSome()
      requires Valid() && activeNetwork > 0
      modifies this
      ensures Valid() && submitted == old(submitted)
      ensures |networkQueue| + activeNetwork < |old(networkQueue)| + old(activeNetwork)
    {
      Bounded();
      ghost var job :| job in running;
      Settle(job);
      Bounded();
    }
  }

  lemma {:induction false} TwiceMeansTwoPlaces(jobs: seq<Job>, job: Job)
    requires multiset(jobs)[job] >= 2
    ensures exists i, j :: 0 <= i < j < |jobs| && jobs[i] == job && jobs[j] == job
    decreases |jobs|
  {
    var rest := jobs[1..];
    assert jobs == [jobs[0]] + rest;
    if jobs[0] == job {
      assert job in multiset(rest);
      var k :| 0 <= k < |rest| && rest[k] == job;
      assert jobs[k + 1] == job;
    } else {
      TwiceMeansTwoPlaces(rest, job);
      var i, j :| 0 <= i < j < |rest| && rest[i] == job && rest[j] == job;
      assert jobs[i + 1] == job && jobs[j + 1] == job;
    }
  }

  /** The sort after a push: the queue was sorted, so the new job moves to its place. */
  method InsertSorted(queue: seq<Job>, job: Job) returns (sorted: seq<Job>)
    requires Sorted(queue) && forall other :: other in queue ==> other.order < job.order
    ensures Sorted(sorted) && multiset(sorted) == multiset(queue) + multiset{job}
    ensures forall i, j :: 0 <= i < j < |sorted| ==>
              || sorted[i].priority > sorted[j].priority
              || (sorted[i].priority == sorted[j].priority && sorted[i].order < sorted[j].order)
    ensures forall other :: other in sorted <==> other in queue || other == job
    ensures queue == [] ==> sorted == [job]
  {
    var k := |queue|;
    while k > 0 && Before(job, queue[k - 1])
      invariant 0 <= k <= |queue|
      invariant forall i :: k <= i < |queue| ==> Before(job, queue[i])
    {
      k := k - 1;
    }
    hide *;
    sorted := queue[..k] + [job] + queue[k..];
    Inserted(queue, k, job);
    SameJobs(queue, k, job);
  }

  lemma SameJobs(queue: seq<Job>, k: nat, job: Job)
    requires k <= |queue|
    ensures var sorted := queue[..k] + [job] + queue[k..];
            && multiset(sorted) == multiset(queue) + multiset{job}
            && forall other :: other in sorted <==> other in queue || other == job
  {
    assert queue == queue[..k] + queue[k..];
  }

  lemma Inserted(queue: seq<Job>, k: nat, job: Job)
    requires Sorted(queue) && k <= |queue| && forall other :: other in queue ==> other.order < job.order
    requires (k > 0 ==> !Before(job, queue[k - 1])) && forall i :: k <= i < |queue| ==> Before(job, queue[i])
    ensures Sorted(queue[..k] + [job] + queue[k..])
  {
    forall i | 0 <= i < k ensures Before(queue[i], job) {
      assert queue[i] in queue && queue[k - 1] in queue;
    }
  }
}

/** The write half: a promise chain per canonical device.  Its methods are the steps of
    the promise machinery, and may be interleaved in any order. */
module WriteScheduling {
  type Key = string

  /** `Waiting` for the write before it; `Running`; `Settled`, and its tail after it;
      `Cleaned` once the `finally` of the tail has run. */
  datatype Progress = Waiting | Running | Settled | TailSettled | Cleaned

  /** `previous` is the tail found in the map when the write was scheduled. */
  datatype Write = Write(key: Key, previous: int, progress: Progress, failed: bool)

  const NO_TAIL: int := -1

  function Rank(p: Progress): nat {
    match p case Waiting => 0 case Running => 1 case Settled => 2 case TailSettled => 3 case Cleaned => 4
  }

  function Next(p: Progress): Progress {
    match p case Waiting => Running case Running => Settled case Settled => TailSettled case _ => Cleaned
  }

  /** The tail of the write has settled. */
  predicate Over(w: Write) { Rank(w.progress) >= 3 }

  /** Every write for `key` before number `n` is over. */
  ghost predicate AllOver(writes: seq<Write>, key: Key, n: nat) {
    forall k :: 0 <= k < n && k < |writes| && writes[k].key == key ==> Over(writes[k])
  }

  /** `last` is the last write for `key` before number `n`. */
  ghost predicate LastBefore(writes: seq<Write>, key: Key, n: nat, last: int) {
    && 0 <= last < n && last < |writes| && writes[last].key == key
    && forall k :: last < k < n && k < |writes| ==> writes[k].key != key
  }

  /** A write starts only after everything before it on its device is over. */
  ghost predicate Serial(writes: seq<Write>) {
    forall n :: 0 <= n < |writes| && !writes[n].progress.Waiting? ==> AllOver(writes, writes[n].key, n)
  }

  /** A write follows the last one before it, unless all before it were over. */
  ghost predicate Chained(writes: seq<Write>) {
    forall n :: 0 <= n < |writes| ==>
      if writes[n].previous == NO_TAIL then AllOver(writes, writes[n].key, n)
      else LastBefore(writes, writes[n].key, n, writes[n].previous)
  }

  predicate Live(writes: seq<Write>, n: int) { 0 <= n < |writes| && !writes[n].progress.Cleaned? }

  /** The map names the last write of a device, until that has been cleaned up. */
  ghost predicate Mapped(writes: seq<Write>, writers: map<Key, int>) {
    && (forall key :: key in writers ==> LastBefore(writes, key, |writes|, writers[key]) && Live(writes, writers[key]))
    && forall n :: 0 <= n < |writes| && LastBefore(writes, writes[n].key, |writes|, n) && Live(writes, n) ==>
         writes[n].key in writers && writers[writes[n].key] == n
  }

  /** `started` are the writes whose work has been called: each once, and those of one device in
      the order in which they were scheduled. */
  ghost predicate Called(writes: seq<Write>, started: seq<nat>) {
    && (forall n: nat :: n in started <==> HasStarted(writes, n))
    && (forall i, j :: 0 <= i < j < |started| ==> CalledInTurn(writes, started[i], started[j]))
  }

  ghost predicate HasStarted(writes: seq<Write>, n: nat) { n < |writes| && !writes[n].progress.Waiting? }

  /** Write `a` was called before write `b`. */
  ghost predicate CalledInTurn(writes: seq<Write>, a: nat, b: nat) {
    a != b && a < |writes| && b < |writes| && (writes[a].key == writes[b].key ==> a < b)
  }

  class WriteChains {
    const canonical: string -> Key
    var writes: seq<Write>
    var writers: map<Key, int>
    ghost var started: seq<nat>    // in the order of the calls

    ghost predicate Valid()
      reads this
    {
      Serial(writes) && Chained(writes) && Mapped(writes, writers) && Called(writes, started)
    }

    constructor (canonicalDeviceId: string -> Key)
      ensures Valid() && writes == [] && canonical == canonicalDeviceId
    {
      canonical, writes, writers, started := canonicalDeviceId, [], map[], [];
    }

    /** `scheduleWrite` */
    method ScheduleWrite(deviceId: string) returns (id: nat)
      requires Valid()
      modifies this
      ensures Valid()
      ensures id == |old(writes)| && |writes| == id + 1 && writes[..id] == old(writes)
      ensures writes[id].key == canonical(deviceId) && writes[id].progress.Waiting?
      ensures writers == old(writers)[canonical(deviceId) := id] && started == old(started)
    {
      hide Called;
      var key := canonical(deviceId);
      var previous := if key in writers then writers[key] else NO_TAIL;
      if key !in writers { AllOverWithoutTail(writes, writers, key); }
      id := |writes|;
      AppendKeeps(writes, writers, Write(key, previous, Waiting, false));
      AppendKeepsCalled(writes, started, Write(key, previous, Waiting, false));
      writes, writers := writes + [Write(key, previous, Waiting, false)], writers[key := id];
    }

    /** One event of the machinery for write `id`: its work is called, its result settles
        (or fails), its tail settles, its `finally` runs. */
    method Step(id: nat, failed: bool)
      requires Valid() && id < |writes| && CanStep(id)
      modifies this
      ensures Valid()
      ensures writes == Advance(old(writes), id, Next(old(writes)[id].progress), failed)
      ensures old(writes)[id].progress.Waiting? ==> AllOver(old(writes), old(writes)[id].key, id)
      ensures writers == MapAfter(old(writers), old(writes)[id].key, id, Next(old(writes)[id].progress))
      ensures started == if old(writes)[id].progress.Waiting? then old(started) + [id] else old(started)
    {
      hide Called;
      var progress, key := Next(writes[id].progress), writes[id].key;
      AdvanceKeepsCalled(writes, started, id, progress, failed);
      if writes[id].progress.Waiting? { StartIsSafe(writes, id); }
      AdvanceKeepsSerial(writes, id, progress, failed);
      AdvanceKeepsChained(writes, id, progress, failed);
      AdvanceKeepsMapped(writes, writers, id, progress, failed);
      writes := Advance(writes, id, progress, failed);
      if progress.Running? { started := started + [id]; }
      if progress.Cleaned? && key in writers && writers[key] == id { writers := writers - {key}; }
    }

    /** Whether that event may happen: only a waiting write waits, for the tail it follows. */
    predicate CanStep(id: nat)
      requires id < |writes|
      reads this
    {
      match writes[id].progress
      case Waiting => CanStart(id)
      case Cleaned => false
      case _ => true
    }

    /** Whether the promise machinery may call the work of write `id` now. */
    predicate CanStart(id: nat)
      requires id < |writes|
      reads this
    {
      writes[id].progress.Waiting? && MayStart(writes, id)
    }
  }

  /** A device without a tail in the map has nothing unfinished. */
  lemma AllOverWithoutTail(writes: seq<Write>, writers: map<Key, int>, key: Key)
    requires Serial(writes) && Mapped(writes, writers) && key !in writers
    ensures AllOver(writes, key, |writes|)
  {
    if k :| 0 <= k < |writes| && writes[k].key == key {
      var last := FindLast(writes, key, |writes|);
      assert writes[last].progress.Cleaned?;
      assert AllOver(writes, key, last);
    }
  }

  ghost function FindLast(writes: seq<Write>, key: Key, n: nat): (last: nat)
    requires n <= |writes| && exists k :: 0 <= k < n && writes[k].key == key
    ensures LastBefore(writes, key, n, last)
  {
    if writes[n - 1].key == key then n - 1 else FindLast(writes, key, n - 1)
  }

  // ---- A new write.

  lemma SameBefore(writes: seq<Write>, w: Write, key: Key, n: nat)
    requires n <= |writes|
    ensures AllOver(writes + [w], key, n) <==> AllOver(writes, key, n)
    ensures forall last :: LastBefore(writes + [w], key, n, last) <==> LastBefore(writes, key, n, last)
  {
    var all := writes + [w];
    assert forall k :: 0 <= k < n ==> all[k] == writes[k];
    forall last ensures LastBefore(all, key, n, last) <==> LastBefore(writes, key, n, last) { }
  }

  lemma AppendKeepsSerial(writes: seq<Write>, w: Write)
    requires Serial(writes) && w.progress.Waiting?
    ensures Serial(writes + [w])
  {
    hide AllOver;
    forall n | 0 <= n < |writes| + 1 && !(writes + [w])[n].progress.Waiting?
      ensures AllOver(writes + [w], (writes + [w])[n].key, n)
    {
      SameBefore(writes, w, writes[n].key, n);
    }
  }

  lemma AppendKeepsChained(writes: seq<Write>, w: Write)
    requires Chained(writes)
    requires if w.previous == NO_TAIL then AllOver(writes, w.key, |writes|)
             else LastBefore(writes, w.key, |writes|, w.previous)
    ensures Chained(writes + [w])
  {
    hide AllOver, LastBefore;
    var all := writes + [w];
    forall n | 0 <= n < |all|
      ensures if all[n].previous == NO_TAIL then AllOver(all, all[n].key, n)
              else LastBefore(all, all[n].key, n, all[n].previous)
    {
      SameBefore(writes, w, all[n].key, n);
    }
  }

  lemma LastAfterAppend(writes: seq<Write>, w: Write, key: Key, last: int)
    ensures LastBefore(writes + [w], key, |writes| + 1, last) <==>
              if key == w.key then last == |writes| else LastBefore(writes, key, |writes|, last)
  {
    var all := writes + [w];
    assert all[|writes|] == w;
    forall k | 0 <= k < |writes| ensures all[k] == writes[k] { }
  }

  lemma AppendKeepsMapped(writes: seq<Write>, writers: map<Key, int>, w: Write)
    requires Mapped(writes, writers) && w.progress.Waiting?
    ensures Mapped(writes + [w], writers[w.key := |writes|])
  {
    hide LastBefore;
    var all, map' := writes + [w], writers[w.key := |writes|];
    forall key | key in map' ensures LastBefore(all, key, |all|, map'[key]) && Live(all, map'[key]) {
      LastAfterAppend(writes, w, key, map'[key]);
      if key != w.key { InRange(writes, key, |writes|, writers[key]); }
    }
    forall n | 0 <= n < |all| && LastBefore(all, all[n].key, |all|, n) && Live(all, n)
      ensures all[n].key in map' && map'[all[n].key] == n
    {
      LastAfterAppend(writes, w, all[n].key, n);
    }
  }

  lemma InRange(writes: seq<Write>, key: Key, n: nat, last: int)
    requires LastBefore(writes, key, n, last)
    ensures 0 <= last < n && last < |writes| && writes[last].key == key
  {
  }

  lemma AppendKeepsCalled(writes: seq<Write>, started: seq<nat>, w: Write)
    requires Called(writes, started) && w.progress.Waiting?
    ensures Called(writes + [w], started)
  {
    forall n: nat ensures n in started <==> HasStarted(writes + [w], n) {
      assert n in started <==> HasStarted(writes, n);
    }
    forall i, j | 0 <= i < j < |started| ensures CalledInTurn(writes + [w], started[i], started[j]) {
      assert CalledInTurn(writes, started[i], started[j]);
    }
  }

  lemma AppendKeeps(writes: seq<Write>, writers: map<Key, int>, w: Write)
    requires Serial(writes) && Chained(writes) && Mapped(writes, writers) && w.progress.Waiting?
    requires w.previous == if w.key in writers then writers[w.key] else NO_TAIL
    requires w.key !in writers ==> AllOver(writes, w.key, |writes|)
    ensures Serial(writes + [w]) && Chained(writes + [w]) && Mapped(writes + [w], writers[w.key := |writes|])
  {
    AppendKeepsSerial(writes, w);
    AppendKeepsMapped(writes, writers, w);
    hide Serial, Chained, AllOver;
    AppendKeepsChained(writes, w);
  }

  // ---- A write moves on.

  function Advance(writes: seq<Write>, id: nat, progress: Progress, failed: bool): seq<Write>
    requires id < |writes|
  {
    writes[id := writes[id].(progress := progress, failed := failed)]
  }

  lemma AdvanceElsewhere(writes: seq<Write>, id: nat, progress: Progress, failed: bool, key: Key, n: nat)
    requires id < |writes| && Rank(progress) >= Rank(writes[id].progress)
    ensures AllOver(writes, key, n) ==> AllOver(Advance(writes, id, progress, failed), key, n)
    ensures forall last :: LastBefore(Advance(writes, id, progress, failed), key, n, last)
              <==> LastBefore(writes, key, n, last)
  {
    var after := Advance(writes, id, progress, failed);
    forall last ensures LastBefore(after, key, n, last) <==> LastBefore(writes, key, n, last) {
      forall k | 0 <= k < |writes| ensures after[k].key == writes[k].key { }
    }
  }

  lemma AdvanceKeepsSerial(writes: seq<Write>, id: nat, progress: Progress, failed: bool)
    requires Serial(writes) && id < |writes| && Rank(progress) >= Rank(writes[id].progress)
    requires writes[id].progress.Waiting? && !progress.Waiting? ==> AllOver(writes, writes[id].key, id)
    ensures Serial(Advance(writes, id, progress, failed))
  {
    hide AllOver;
    var after := Advance(writes, id, progress, failed);
    forall n | 0 <= n < |after| && !after[n].progress.Waiting? ensures AllOver(after, after[n].key, n) {
      AdvanceElsewhere(writes, id, progress, failed, after[n].key, n);
    }
  }

  lemma AdvanceKeepsChained(writes: seq<Write>, id: nat, progress: Progress, failed: bool)
    requires Chained(writes) && id < |writes| && Rank(progress) >= Rank(writes[id].progress)
    ensures Chained(Advance(writes, id, progress, failed))
  {
    hide AllOver, LastBefore;
    var after := Advance(writes, id, progress, failed);
    forall n | 0 <= n < |after|
      ensures if after[n].previous == NO_TAIL then AllOver(after, after[n].key, n)
              else LastBefore(after, after[n].key, n, after[n].previous)
    {
      AdvanceElsewhere(writes, id, progress, failed, after[n].key, n);
    }
  }

  /** A write whose work is called joins those called before; later ones of its device still wait. */
  lemma AdvanceKeepsCalled(writes: seq<Write>, started: seq<nat>, id: nat, progress: Progress, failed: bool)
    requires Serial(writes) && Called(writes, started) && id < |writes| && progress == Next(writes[id].progress)
    ensures Called(Advance(writes, id, progress, failed), if progress.Running? then started + [id] else started)
  {
    var after, all := Advance(writes, id, progress, failed), if progress.Running? then started + [id] else started;
    forall n: nat ensures n in all <==> HasStarted(after, n) { assert n in started <==> HasStarted(writes, n); }
    forall i, j | 0 <= i < j < |all| ensures CalledInTurn(after, all[i], all[j]) {
      if j < |started| { assert CalledInTurn(writes, started[i], started[j]); } else { NextInTurn(writes, id, all[i]); }
    }
  }

  /** A write that has started is not a later one of the same device as one that waits. */
  lemma NextInTurn(writes: seq<Write>, id: nat, other: nat)
    requires Serial(writes) && id < |writes| && writes[id].progress.Waiting? && HasStarted(writes, other)
    ensures CalledInTurn(writes, other, id)
  {
  }

  /** The map after `id` has moved on: cleaning up removes the tail if it is still there. */
  function MapAfter(writers: map<Key, int>, key: Key, id: nat, progress: Progress): map<Key, int> {
    if progress.Cleaned? && key in writers && writers[key] == id then writers - {key} else writers
  }

  lemma AdvanceKeepsMapped(writes: seq<Write>, writers: map<Key, int>, id: nat, progress: Progress, failed: bool)
    requires Mapped(writes, writers) && id < |writes| && Rank(progress) >= Rank(writes[id].progress)
    ensures Mapped(Advance(writes, id, progress, failed), MapAfter(writers, writes[id].key, id, progress))
  {
    hide LastBefore;
    var after, map' := Advance(writes, id, progress, failed), MapAfter(writers, writes[id].key, id, progress);
    forall key | key in map' ensures LastBefore(after, key, |after|, map'[key]) && Live(after, map'[key]) {
      AdvanceElsewhere(writes, id, progress, failed, key, |writes|);
      InRange(writes, key, |writes|, writers[key]);
    }
    forall n | 0 <= n < |after| && LastBefore(after, after[n].key, |after|, n) && Live(after, n)
      ensures after[n].key in map' && map'[after[n].key] == n
    {
      AdvanceElsewhere(writes, id, progress, failed, after[n].key, |writes|);
    }
  }

  /** What lets a write start is that everything before it on its device is over. */
  lemma StartIsSafe(writes: seq<Write>, id: nat)
    requires Serial(writes) && Chained(writes) && id < |writes| && MayStart(writes, id)
    ensures AllOver(writes, writes[id].key, id)
  {
    if writes[id].previous != NO_TAIL {
      assert AllOver(writes, writes[id].key, writes[id].previous);
    }
  }

  // ---- What follows for every interleaving.

  /** Never two writes on one device, and they start in the order they were scheduled. */
  lemma OneAtATime(writes: seq<Write>, a: nat, b: nat)
    requires Serial(writes) && a < b < |writes| && writes[a].key == writes[b].key
    ensures !(writes[a].progress.Running? && writes[b].progress.Running?)
    ensures !writes[b].progress.Waiting? ==> Over(writes[a])
  {
    if !writes[b].progress.Waiting? { assert AllOver(writes, writes[b].key, b); }
  }

  predicate MayStart(writes: seq<Write>, id: nat)
    requires id < |writes|
  {
    writes[id].previous == NO_TAIL || (0 <= writes[id].previous < |writes| && Over(writes[writes[id].previous]))
  }

  /** The first write that is still waiting, when nothing is under way, may start. */
  lemma {:induction false} FirstWaitingMayStart(writes: seq<Write>, n: nat)
    requires Chained(writes) && n < |writes| && writes[n].progress.Waiting?
    requires forall k :: 0 <= k < |writes| ==> writes[k].progress.Waiting? || writes[k].progress.Cleaned?
    ensures exists id: nat :: id < |writes| && writes[id].progress.Waiting? && MayStart(writes, id)
    decreases n
  {
    var previous := writes[n].previous;
    if previous != NO_TAIL {
      assert LastBefore(writes, writes[n].key, n, previous);
      if writes[previous].progress.Waiting? {
        FirstWaitingMayStart(writes, previous);
      } else {
        assert MayStart(writes, n);
      }
    } else {
      assert MayStart(writes, n);
    }
  }

  ghost function Remaining(writes: seq<Write>): nat {
    if writes == [] then 0 else 4 - Rank(writes[0].progress) + Remaining(writes[1..])
  }

  lemma {:induction false} StepShrinks(writes: seq<Write>, id: nat, failed: bool)
    requires id < |writes| && !writes[id].progress.Cleaned?
    ensures Remaining(Advance(writes, id, Next(writes[id].progress), failed)) < Remaining(writes)
    decreases |writes|
  {
    var after := Advance(writes, id, Next(writes[id].progress), failed);
    if id > 0 {
      assert after[1..] == Advance(writes[1..], id - 1, Next(writes[id].progress), failed);
      StepShrinks(writes[1..], id - 1, failed);
    } else {
      assert after[1..] == writes[1..];
    }
  }

  /** However the events are interleaved and whichever writes fail, every write runs, and
      then the map is empty: neither a failure nor a removed tail holds up a later write. */
  method RunOut(chains: WriteChains)
    requires chains.Valid()
    modifies chains
    ensures chains.Valid() && chains.writers == map[]
    ensures |chains.writes| == |old(chains.writes)| && forall n :: 0 <= n < |chains.writes| ==>
              chains.writes[n].progress.Cleaned? && chains.writes[n].key == old(chains.writes)[n].key
    // the work of each was called, once, and in the order of scheduling on each device
    ensures forall n: nat :: n in chains.started <==> n < |chains.writes|
    ensures forall i, j :: 0 <= i < j < |chains.started| ==>
              && chains.started[i] != chains.started[j]
              && chains.started[i] < |chains.writes| && chains.started[j] < |chains.writes|
              && (chains.writes[chains.started[i]].key == chains.writes[chains.started[j]].key ==>
                    chains.started[i] < chains.started[j])
  {
    hide Serial, Chained, Mapped, Called;
    while !AllCleaned(chains.writes)
      invariant chains.Valid() && |chains.writes| == |old(chains.writes)|
      invariant forall n :: 0 <= n < |chains.writes| ==> chains.writes[n].key == old(chains.writes)[n].key
      decreases Remaining(chains.writes)
    {
      SomeCanStep(chains);
      var id: nat :| id < |chains.writes| && chains.CanStep(id);
      var failed: bool :| true;
      StepShrinks(chains.writes, id, failed);
      chains.Step(id, failed);
    }
    TailsAreLive(chains.writes, chains.writers);
    AllCalled(chains.writes, chains.started);
    assert chains.writers == map[];
  }

  lemma AllCalled(writes: seq<Write>, started: seq<nat>)
    requires Called(writes, started) && AllCleaned(writes)
    ensures forall n: nat :: n in started <==> n < |writes|
    ensures forall i, j :: 0 <= i < j < |started| ==>
              && started[i] != started[j] && started[i] < |writes| && started[j] < |writes|
              && (writes[started[i]].key == writes[started[j]].key ==> started[i] < started[j])
  {
    forall n: nat ensures n in started <==> n < |writes| { assert n in started <==> HasStarted(writes, n); }
    forall i, j | 0 <= i < j < |started|
      ensures started[i] != started[j] && started[i] < |writes| && started[j] < |writes|
      ensures writes[started[i]].key == writes[started[j]].key ==> started[i] < started[j]
    {
      assert CalledInTurn(writes, started[i], started[j]);
    }
  }

  lemma TailsAreLive(writes: seq<Write>, writers: map<Key, int>)
    requires Mapped(writes, writers)
    ensures forall key :: key in writers ==> Live(writes, writers[key])
  {
  }

  predicate AllCleaned(writes: seq<Write>) { forall n :: 0 <= n < |writes| ==> writes[n].progress.Cleaned? }

  /** The machinery is never stuck. */
  lemma SomeCanStep(chains: WriteChains)
    requires chains.Valid() && !AllCleaned(chains.writes)
    ensures exists id: nat :: id < |chains.writes| && chains.CanStep(id)
  {
    var writes := chains.writes;
    var n: nat :| n < |writes| && !writes[n].progress.Cleaned?;
    if k: nat :| k < |writes| && !writes[k].progress.Waiting? && !writes[k].progress.Cleaned? {
      assert chains.CanStep(k);
    } else {
      FirstWaitingMayStart(writes, n);
      var id: nat :| id < |writes| && writes[id].progress.Waiting? && MayStart(writes, id);
      assert chains.CanStep(id);
    }
  }
}
