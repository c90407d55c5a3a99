/** The bounded cache of derived media (`src/desktop/media_cache.cpp`), with its two background jobs. */
module MediaCaching {
  import opened Wrappers
  import opened RationalTimes
  import opened Model

  const BYTE_LIMIT: nat := 16 * 1024 * 1024
  const ENTRY_LIMIT: nat := 256
  const QUEUE_LIMIT: nat := 32

  datatype Key = Key(asset: uint64, stream: uint32, wave: bool, time: Time)

  /** A derived image or waveform: its accounted size, whether it is an error, when it was last checked. */
  datatype CacheData = CacheData(content: string, failed: bool, checked: int, bytes: nat)

  datatype Entry = Entry(data: CacheData, used: nat)

  datatype Job = Job(active: bool, stopped: bool, key: Key, generation: nat)

  const NO_JOB := Job(false, false, Key(0, 0, false, Zero), 0)

  // ----- accounted bytes

  ghost function SumBytes(entries: map<Key, Entry>): nat
    decreases |entries|
  {
    if entries == map[] then 0
    else
      var key :| key in entries;
      entries[key].data.bytes + SumBytes(entries - {key})
  }

  lemma {:induction false} SumWithout(entries: map<Key, Entry>, key: Key)
    requires key in entries
    ensures SumBytes(entries) == entries[key].data.bytes + SumBytes(entries - {key})
    decreases |entries|
  {
    var first :| first in entries && SumBytes(entries) == entries[first].data.bytes + SumBytes(entries - {first});
    if first != key {
      SumWithout(entries - {first}, key);
      SumWithout(entries - {key}, first);
      assert (entries - {first}) - {key} == (entries - {key}) - {first};
    }
  }

  lemma EmptySum()
    ensures SumBytes(map[]) == 0
  {
  }

  lemma SumWith(entries: map<Key, Entry>, key: Key, entry: Entry)
    requires key !in entries
    ensures SumBytes(entries[key := entry]) == SumBytes(entries) + entry.data.bytes
  {
    SumWithout(entries[key := entry], key);
    assert entries[key := entry] - {key} == entries;
  }

  lemma SumTouched(entries: map<Key, Entry>, key: Key, used: nat)
    requires key in entries
    ensures SumBytes(entries[key := entries[key].(used := used)]) == SumBytes(entries)
  {
    var touched := entries[key := entries[key].(used := used)];
    SumWithout(entries, key);
    SumWithout(touched, key);
    assert touched - {key} == entries - {key};
  }

  // ----- least recently used

  ghost predicate Stamped(entries: map<Key, Entry>, used: nat) {
    && (forall k :: k in entries ==> entries[k].used <= used)
    && (forall j, k :: j in entries && k in entries && j != k ==> entries[j].used != entries[k].used)
  }

  lemma StampedWith(entries: map<Key, Entry>, used: nat, key: Key, value: CacheData)
    requires Stamped(entries, used) && key !in entries
    ensures Stamped(entries[key := Entry(value, used + 1)], used + 1)
    ensures |entries[key := Entry(value, used + 1)]| == |entries| + 1
  {
    hide SumBytes;
    assert entries[key := Entry(value, used + 1)].Keys == entries.Keys + {key};
  }

  lemma StampedTouched(entries: map<Key, Entry>, used: nat, key: Key)
    requires Stamped(entries, used) && key in entries
    ensures var touched := entries[key := entries[key].(used := used + 1)];
            Stamped(touched, used + 1) && |touched| == |entries|
  {
    hide SumBytes;
    assert entries[key := entries[key].(used := used + 1)].Keys == entries.Keys;
  }

  lemma TwoJobs(pending: set<Key>, queue: seq<Key>, jobs: seq<Job>, generation: nat)
    requires PendingHolds(pending, queue, jobs, generation)
    ensures |jobs| == 2
  {
  }

  lemma KeysUsedBefore(entries: map<Key, Entry>, used: nat)
    requires Stamped(entries, used)
    ensures forall k :: k in entries ==> entries[k].used <= used
  {
  }

  lemma StampedWithout(entries: map<Key, Entry>, used: nat, key: Key)
    requires Stamped(entries, used) && key in entries
    ensures Stamped(entries - {key}, used) && |entries - {key}| == |entries| - 1
  {
    hide SumBytes;
    assert (entries - {key}).Keys == entries.Keys - {key};
  }

  /** `std::min_element` by last use. */
  method Oldest(entries: map<Key, Entry>) returns (victim: Key)
    requires entries != map[]
    ensures victim in entries
    ensures forall k :: k in entries ==> entries[victim].used <= entries[k].used
  {
    var left := entries.Keys;
    victim :| victim in left;
    left := left - {victim};
    while left != {}
      invariant victim in entries && victim !in left && left <= entries.Keys
      invariant forall k :: k in entries && k !in left ==> entries[victim].used <= entries[k].used
      decreases left
    {
      var k :| k in left;
      if entries[k].used < entries[victim].used {
        victim := k;
      }
      left := left - {k};
    }
  }

  /**
   What `retain` keeps of the old entries: the most recently used, and as many as the limits allow. With
   the last evicted entry put back the cache would still be over its limits.
   */
  ghost predicate KeptRecent(old_: map<Key, Entry>, kept: map<Key, Entry>, count: nat) {
    && (forall k :: k in kept ==> k in old_ && kept[k] == old_[k])
    && (forall k, v :: k in kept && v in old_ && v !in kept ==> old_[v].used < kept[k].used)
    && (kept == old_ || exists v :: v in old_ && v !in kept && Full(kept[v := old_[v]], count))
  }

  ghost predicate Full(entries: map<Key, Entry>, count: nat) {
    entries != map[] && (|entries| >= ENTRY_LIMIT || SumBytes(entries) + count > BYTE_LIMIT)
  }

  // ----- pending requests

  function QueueKeys(queue: seq<Key>): set<Key> { set k | k in queue }

  predicate Current(job: Job, generation: nat) {
    job.active && job.generation == generation
  }

  function Running(jobs: seq<Job>, generation: nat): set<Key> {
    set i | 0 <= i < |jobs| && Current(jobs[i], generation) :: jobs[i].key
  }

  ghost predicate Distinct(queue: seq<Key>) {
    forall i, j :: 0 <= i < j < |queue| ==> queue[i] != queue[j]
  }

  /** Pending keys are those queued and those being made for the current project, and no key is both. */
  ghost predicate PendingHolds(pending: set<Key>, queue: seq<Key>, jobs: seq<Job>, generation: nat) {
    && |jobs| == 2 && |queue| <= QUEUE_LIMIT && Distinct(queue)
    && pending == QueueKeys(queue) + Running(jobs, generation)
    && QueueKeys(queue) !! Running(jobs, generation)
    && (forall i, j :: 0 <= i < j < |jobs| && Current(jobs[i], generation) && Current(jobs[j], generation) ==>
          jobs[i].key != jobs[j].key)
    && (forall i :: 0 <= i < |jobs| ==> jobs[i].generation <= generation)
  }

  lemma {:induction false} QueueKeysBound(queue: seq<Key>)
    requires Distinct(queue)
    ensures |QueueKeys(queue)| == |queue|
  {
    if queue != [] {
      var n := |queue| - 1;
      QueueKeysBound(queue[..n]);
      assert QueueKeys(queue) == QueueKeys(queue[..n]) + {queue[n]};
    }
  }

  /** There are never more pending keys than the queue and the two jobs can hold. */
  lemma PendingBound(pending: set<Key>, queue: seq<Key>, jobs: seq<Job>, generation: nat)
    requires PendingHolds(pending, queue, jobs, generation)
    ensures |pending| <= QUEUE_LIMIT + 2
  {
    QueueKeysBound(queue);
    var running := Running(jobs, generation);
    assert running <= {jobs[0].key, jobs[1].key};
    SubsetSize(running, {jobs[0].key, jobs[1].key});
  }

  lemma {:induction false} SubsetSize(a: set<Key>, b: set<Key>)
    requires a <= b
    ensures |a| <= |b|
  {
    if a != {} {
      var x :| x in a;
      SubsetSize(a - {x}, b - {x});
    }
  }

  predicate Known(assets: seq<MediaAsset>, key: Key) {
    exists a :: 0 <= a < |assets| && assets[a].id == key.asset
  }

  /** The search for the asset of a request. */
  method IsKnown(assets: seq<MediaAsset>, key: Key) returns (known: bool)
    ensures known <==> Known(assets, key)
  {
    for i := 0 to |assets|
      invariant forall j :: 0 <= j < i ==> assets[j].id != key.asset
    {
      if assets[i].id == key.asset { return true; }
    }
    return false;
  }

  function Idle(jobs: seq<Job>): nat {
    if jobs == [] then 0 else Idle(jobs[..|jobs| - 1]) + (if jobs[|jobs| - 1].active then 0 else 1)
  }

  lemma NoneIdle(jobs: seq<Job>)
    ensures Idle(jobs[..0]) == 0
  {
  }

  lemma OneMoreIdle(jobs: seq<Job>, i: nat)
    requires i < |jobs|
    ensures Idle(jobs[..i + 1]) == Idle(jobs[..i]) + (if jobs[i].active then 0 else 1)
  {
    assert jobs[..i + 1][..i] == jobs[..i];
  }

  function Larger(a: int, b: int): int { if a < b then b else a }

  /** The entry is absent, or was checked too long ago; errors are kept longer. */
  predicate Stale(entries: map<Key, Entry>, key: Key, now: int) {
    key !in entries || now - entries[key].data.checked > (if entries[key].data.failed then 5000 else 1000)
  }

  class MediaCache {
    var project: uint64
    var assets: seq<MediaAsset>
    var generation: nat
    var used: nat
    var bytes: nat
    var entries: map<Key, Entry>
    var queue: seq<Key>
    var pending: set<Key>
    var jobs: seq<Job>

    ghost predicate Valid()
      reads this
    {
      && bytes == SumBytes(entries) <= BYTE_LIMIT && |entries| <= ENTRY_LIMIT
      && Stamped(entries, used)
      && PendingHolds(pending, queue, jobs, generation)
    }

    constructor ()
      ensures Valid() && entries == map[] && pending == {}
    {
      project, assets, generation, used, bytes := 0, [], 0, 0, 0;
      entries, queue, pending := map[], [], {};
      jobs := [NO_JOB, NO_JOB];
    }

    /** Another project or other media start a new generation with an empty cache. */
    method Synchronize(id: uint64, media: seq<MediaAsset>)
      requires Valid()
      modifies this
      ensures Valid() && project == id && assets == media
      ensures if old(project) == id && old(assets) == media then
                && generation == old(generation) && entries == old(entries)
                && queue == old(queue) && pending == old(pending)
              else
                && generation == old(generation) + 1 && entries == map[] && queue == [] && pending == {} && bytes == 0
                && (forall i :: 0 <= i < 2 ==> jobs[i].active ==> jobs[i].stopped)
    {
      hide PendingHolds, SumBytes, Stamped;
      if id == project && media == assets {
        return;
      }
      Reset();
      project, assets := id, media;
    }

    /** Begins a new generation: running jobs are told to stop and everything cached is dropped. */
    method Reset()
      requires Valid()
      modifies this`generation, this`jobs, this`queue, this`pending, this`entries, this`bytes
      ensures Valid() && generation == old(generation) + 1
      ensures entries == map[] && queue == [] && pending == {} && bytes == 0
      ensures forall i :: 0 <= i < 2 ==> jobs[i].active ==> jobs[i].stopped
    {
      hide PendingHolds, SumBytes;
      EmptySum();
      JobGenerations(pending, queue, jobs, generation);
      NewGeneration(jobs, generation);
      generation := generation + 1;
      jobs := [jobs[0].(stopped := true), jobs[1].(stopped := true)];
      queue, pending, entries, bytes := [], {}, map[], 0;
    }

    /**
     `retain`: replaces an entry and evicts the least recently used ones, no more of them than the byte
     and entry limits demand. Something too large for the whole cache is not kept.
     */
    method Retain(key: Key, value: CacheData)
      requires Valid()
      modifies this`bytes, this`entries, this`used
      ensures Valid()
      ensures value.bytes > BYTE_LIMIT ==> entries == old(entries) - {key} && used == old(used)
      ensures value.bytes <= BYTE_LIMIT ==>
                && used == old(used) + 1 && key in entries && entries[key] == Entry(value, used)
                && KeptRecent(old(entries) - {key}, entries - {key}, value.bytes)
    {
      hide PendingHolds, SumBytes, KeptRecent, Stamped;
      Forget(key);
      if value.bytes > 16 * 1024 * 1024 {
        return;
      }
      MakeRoom(value.bytes);
      Insert(key, value);
    }

    /** Adds a new entry as the most recently used one. */
    method Insert(key: Key, value: CacheData)
      requires Valid() && key !in entries && |entries| < ENTRY_LIMIT && bytes + value.bytes <= BYTE_LIMIT
      modifies this`bytes, this`entries, this`used
      ensures Valid() && used == old(used) + 1
      ensures entries == old(entries)[key := Entry(value, used)] && entries - {key} == old(entries)
    {
      hide PendingHolds, SumBytes, Stamped;
      SumWith(entries, key, Entry(value, used + 1));
      StampedWith(entries, used, key, value);
      bytes := bytes + value.bytes;
      used := used + 1;
      entries := entries[key := Entry(value, used)];
      assert entries - {key} == old(entries);
    }

    /** Drops the entry a new value replaces. */
    method Forget(key: Key)
      requires Valid()
      modifies this`bytes, this`entries
      ensures Valid() && entries == old(entries) - {key}
    {
      hide PendingHolds, SumBytes, Stamped;
      if key in entries {
        SumWithout(entries, key);
        StampedWithout(entries, used, key);
        bytes := bytes - entries[key].data.bytes;
        entries := entries - {key};
      }
      assert entries == old(entries) - {key};
    }

    /** The eviction loop. */
    method MakeRoom(count: nat)
      requires Valid() && count <= BYTE_LIMIT
      modifies this`bytes, this`entries
      ensures Valid() && KeptRecent(old(entries), entries, count)
      ensures |entries| < ENTRY_LIMIT && bytes + count <= BYTE_LIMIT && entries.Keys <= old(entries).Keys
    {
      hide PendingHolds, SumBytes, Stamped;
      EmptySum();
      assert KeptRecent(old(entries), entries, count);
      hide KeptRecent;
      while entries != map[] && (|entries| >= 256 || bytes + count > 16 * 1024 * 1024)
        invariant Valid() && KeptRecent(old(entries), entries, count) && entries.Keys <= old(entries).Keys
        decreases |entries|
      {
        var victim := Oldest(entries);
        EvictionKeepsRecent(old(entries), entries, count, victim, used);
        SumWithout(entries, victim);
        StampedWithout(entries, used, victim);
        bytes := bytes - entries[victim].data.bytes;
        entries := entries - {victim};
      }
    }

    /** An idle job takes the oldest request; a request for an unknown asset is dropped. */
    method StartOne(i: nat)
      requires Valid() && i < 2 && !jobs[i].active && queue != []
      modifies this`queue, this`pending, this`jobs
      ensures Valid() && queue == old(queue)[1..]
      ensures if Known(assets, old(queue)[0])
              then pending == old(pending) && jobs == old(jobs)[i := Job(true, false, old(queue)[0], generation)]
              else pending == old(pending) - {old(queue)[0]} && jobs == old(jobs)
    {
      hide SumBytes, Stamped, Known;
      var request := queue[0];
      var known := IsKnown(assets, request);
      if known {
        StartKeepsPending(pending, queue, jobs, generation, i);
        jobs := jobs[i := Job(true, false, request, generation)];
      } else {
        DropKeepsPending(pending, queue, jobs, generation);
        pending := pending - {request};
      }
      queue := queue[1..];
    }

    /** `start`: every idle job takes one request off the queue, as long as there are any. */
    method Start()
      requires Valid()
      modifies this`queue, this`pending, this`jobs
      ensures Valid()
      ensures pending <= old(pending) && |queue| <= |old(queue)| && queue == old(queue)[|old(queue)| - |queue|..]
      ensures forall i :: 0 <= i < 2 && old(jobs)[i].active ==> jobs[i] == old(jobs)[i]
      ensures |queue| == Larger(0, |old(queue)| - Idle(old(jobs)))
      ensures forall k :: k in old(pending) && Known(assets, k) ==> k in pending
    {
      hide SumBytes, Stamped, PendingHolds, Known, Idle;
      TwoJobs(pending, queue, jobs, generation);
      NoneIdle(jobs);
      for i := 0 to 2
        invariant Valid() && |jobs| == 2 && pending <= old(pending) && |queue| <= |old(queue)|
        invariant queue == old(queue)[|old(queue)| - |queue|..]
        invariant |queue| == Larger(0, |old(queue)| - Idle(old(jobs)[..i]))
        invariant forall k :: k in old(pending) && Known(assets, k) ==> k in pending
        invariant forall j :: 0 <= j < 2 && (i <= j || old(jobs)[j].active) ==> jobs[j] == old(jobs)[j]
      {
        OneMoreIdle(old(jobs), i);
        if !jobs[i].active && queue != [] {
          StartOne(i);
        }
      }
      assert old(jobs)[..2] == old(jobs);
    }

    /** `request`: an absent or expired entry is queued once, while the queue has room. */
    method Request(key: Key, now: int) returns (found: Option<CacheData>)
      requires Valid()
      modifies this
      ensures Valid()
      ensures found == if key in old(entries) then Some(old(entries)[key].data) else None
      ensures entries.Keys == old(entries).Keys && bytes == old(bytes) && generation == old(generation)
      ensures key in entries ==> forall k :: k in entries && k != key ==> entries[k].used < entries[key].used
      ensures pending <= old(pending) + {key}
      ensures var wanted := Stale(old(entries), key, now) && key !in old(pending) && |old(queue)| < QUEUE_LIMIT;
              && (!wanted ==> pending == old(pending) && queue == old(queue) && jobs == old(jobs))
              && (wanted && Known(assets, key) ==> key in pending)
              && (wanted ==> |queue| == Larger(0, |old(queue)| + 1 - Idle(old(jobs))))
    {
      hide SumBytes, PendingHolds, Idle, Known, Larger, Stamped;
      KeysUsedBefore(entries, used);
      found := None;
      if key in entries {
        Touch(key);
        found := Some(entries[key].data);
      }
      var expired := true;
      if found.Some? {
        expired := now - found.value.checked > (if found.value.failed then 5000 else 1000);
      }
      if expired && key !in pending && |queue| < 32 {
        Enqueue(key);
      }
    }

    /** A new request goes to the end of the queue, and idle jobs are started. */
    method Enqueue(key: Key)
      requires Valid() && key !in pending && |queue| < QUEUE_LIMIT
      modifies this`queue, this`pending, this`jobs
      ensures Valid() && pending <= old(pending) + {key}
      ensures Known(assets, key) ==> key in pending
      ensures |queue| == Larger(0, |old(queue)| + 1 - Idle(old(jobs)))
    {
      hide SumBytes, Stamped, PendingHolds, Idle, Known;
      EnqueueKeepsPending(pending, queue, jobs, generation, key);
      pending := pending + {key};
      queue := queue + [key];
      Start();
    }

    /** Marks an entry as the most recently used. */
    method Touch(key: Key)
      requires Valid() && key in entries
      modifies this`entries, this`used
      ensures Valid() && used == old(used) + 1
      ensures entries == old(entries)[key := old(entries)[key].(used := used)]
    {
      hide SumBytes, PendingHolds, Stamped;
      SumTouched(entries, key, used + 1);
      StampedTouched(entries, used, key);
      used := used + 1;
      entries := entries[key := entries[key].(used := used)];
    }

    /**
     The finished handler of job `i`. A result made for an earlier generation never enters the cache;
     a current one leaves the pending set and is retained.
     */
    method Finished(i: nat, data: CacheData)
      requires Valid() && i < 2 && jobs[i].active
      modifies this
      ensures Valid() && generation == old(generation)
      ensures old(jobs)[i].generation != old(generation) ==>
                entries == old(entries) && bytes == old(bytes) && used == old(used)
      ensures old(jobs)[i].generation == old(generation) && data.bytes <= BYTE_LIMIT ==>
                old(jobs)[i].key in entries && entries[old(jobs)[i].key].data == data
                && KeptRecent(old(entries) - {old(jobs)[i].key}, entries - {old(jobs)[i].key}, data.bytes)
      ensures old(jobs)[i].generation == old(generation) ==> old(jobs)[i].key !in pending
    {
      hide SumBytes, Stamped, KeptRecent;
      var job := jobs[i];
      FinishKeepsPending(pending, queue, jobs, generation, i);
      jobs := jobs[i := job.(active := false)];
      if job.generation == generation {
        pending := pending - {job.key};
        Retain(job.key, data);
      }
      Start();
    }
  }

  lemma EvictionKeepsRecent(old_: map<Key, Entry>, kept: map<Key, Entry>, count: nat, victim: Key, used: nat)
    requires KeptRecent(old_, kept, count) && Stamped(kept, used) && victim in kept && Full(kept, count)
    requires forall k :: k in kept ==> kept[victim].used <= kept[k].used
    ensures KeptRecent(old_, kept - {victim}, count)
  {
    hide SumBytes, Full;
    assert (kept - {victim})[victim := old_[victim]] == kept;
  }

  lemma JobGenerations(pending: set<Key>, queue: seq<Key>, jobs: seq<Job>, generation: nat)
    requires PendingHolds(pending, queue, jobs, generation)
    ensures |jobs| == 2 && forall i :: 0 <= i < |jobs| ==> jobs[i].generation <= generation
  {
  }

  lemma NewGeneration(jobs: seq<Job>, generation: nat)
    requires |jobs| == 2 && forall i :: 0 <= i < |jobs| ==> jobs[i].generation <= generation
    ensures PendingHolds({}, [], [jobs[0].(stopped := true), jobs[1].(stopped := true)], generation + 1)
  {
  }

  lemma EnqueueKeepsPending(pending: set<Key>, queue: seq<Key>, jobs: seq<Job>, generation: nat, key: Key)
    requires PendingHolds(pending, queue, jobs, generation) && key !in pending && |queue| < QUEUE_LIMIT
    ensures PendingHolds(pending + {key}, queue + [key], jobs, generation)
  {
    assert QueueKeys(queue + [key]) == QueueKeys(queue) + {key};
  }

  lemma HeadOfQueue(queue: seq<Key>)
    requires Distinct(queue) && queue != []
    ensures QueueKeys(queue) == QueueKeys(queue[1..]) + {queue[0]} && queue[0] !in QueueKeys(queue[1..])
  {
    assert queue == [queue[0]] + queue[1..];
  }

  lemma StartKeepsPending(pending: set<Key>, queue: seq<Key>, jobs: seq<Job>, generation: nat, i: nat)
    requires PendingHolds(pending, queue, jobs, generation) && queue != [] && i < 2 && !jobs[i].active
    ensures PendingHolds(pending, queue[1..], jobs[i := Job(true, false, queue[0], generation)], generation)
  {
    HeadOfQueue(queue);
    var started := jobs[i := Job(true, false, queue[0], generation)];
    assert Running(started, generation) == Running(jobs, generation) + {queue[0]} by {
      assert started[i].key == queue[0];
      forall k | k in Running(jobs, generation)
        ensures k in Running(started, generation)
      {
        var j :| 0 <= j < |jobs| && jobs[j].active && jobs[j].generation == generation && jobs[j].key == k;
        assert started[j] == jobs[j];
      }
    }
  }

  lemma DropKeepsPending(pending: set<Key>, queue: seq<Key>, jobs: seq<Job>, generation: nat)
    requires PendingHolds(pending, queue, jobs, generation) && queue != []
    ensures PendingHolds(pending - {queue[0]}, queue[1..], jobs, generation)
  {
    HeadOfQueue(queue);
  }

  lemma FinishKeepsPending(pending: set<Key>, queue: seq<Key>, jobs: seq<Job>, generation: nat, i: nat)
    requires PendingHolds(pending, queue, jobs, generation) && i < 2 && jobs[i].active
    ensures var next := if jobs[i].generation == generation then pending - {jobs[i].key} else pending;
            PendingHolds(next, queue, jobs[i := jobs[i].(active := false)], generation)
  {
    var done := jobs[i := jobs[i].(active := false)];
    var other := 1 - i;
    assert done[other] == jobs[other];
    assert Running(done, generation)
        == if jobs[i].generation == generation then Running(jobs, generation) - {jobs[i].key}
           else Running(jobs, generation) by {
      forall k | k in Running(jobs, generation) && (jobs[i].generation != generation || k != jobs[i].key)
        ensures k in Running(done, generation)
      {
        var j :| 0 <= j < |jobs| && jobs[j].active && jobs[j].generation == generation && jobs[j].key == k;
        assert done[j] == jobs[j];
      }
    }
  }
}
