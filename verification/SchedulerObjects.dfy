/**
 The scheduler, its history and the shared pool as the objects the program updates in place.
 */
module SchedulerObjects {
  import opened Bytes
  import opened Scheduler

  /** The steady clock: each reading is the next of `readings`. */
  class SteadyClock {
    const readings: Clock
    var at: nat

    constructor (readings: Clock)
      ensures this.readings == readings && at == 0
    {
      this.readings, at := readings, 0;
    }

    method Now() returns (t: int)
      modifies this
      ensures t == readings(old(at)) && at == old(at) + 1
    {
      t := readings(at);
      at := at + 1;
    }
  }

  class DialHistory {
    const expiry: int
    const clock: SteadyClock
    var entries: map<ByteSeq, int>

    constructor (expiry: int, clock: SteadyClock)
      ensures this.expiry == expiry && this.clock == clock && entries == map[]
    {
      this.expiry, this.clock, entries := expiry, clock, map[];
    }

    method Add(node: ByteSeq)
      modifies this, clock
      ensures entries == old(entries)[node := clock.readings(old(clock.at)) + expiry] && clock.at == old(clock.at) + 1
    {
      var now := clock.Now();
      entries := entries[node := now + expiry];
    }

    method Has(node: ByteSeq) returns (found: bool)
      modifies clock
      ensures clock.at == old(clock.at) + Reads(entries, node)
      ensures found <==> Contains(entries, node, clock.readings(old(clock.at)))
    {
      if node !in entries { return false; }
      var now := clock.Now();
      found := now < entries[node];
    }

    /** Erases while walking over the entries. */
    method Expire()
      modifies this, clock
      ensures entries == Expired(old(entries), clock.readings(old(clock.at))) && clock.at == old(clock.at) + 1
    {
      var now := clock.Now();
      var before := entries;
      var left := entries.Keys;
      while left != {}
        invariant left <= before.Keys
        invariant entries == map x | x in before && (x in left || now < before[x]) :: before[x]
        invariant clock.at == old(clock.at) + 1
        decreases |left|
      {
        var x :| x in left;
        left := left - {x};
        if now >= before[x] { entries := entries - {x}; }
      }
    }
  }

  class WatcherPool {
    const maxTotal: int
    const maxPerChain: int
    var activeTotal: int

    constructor (maxTotal: int, maxPerChain: int)
      ensures this.maxTotal == maxTotal && this.maxPerChain == maxPerChain && activeTotal == 0
    {
      this.maxTotal, this.maxPerChain, activeTotal := maxTotal, maxPerChain, 0;
    }
  }

  class DialScheduler {
    const pool: WatcherPool
    const history: DialHistory
    const filter: Peer -> bool
    var active: int
    var validatedCount: int
    var totalValidated: int
    var stopping: bool
    var queue: seq<Peer>
    var activeSessions: seq<nat>
    ghost var disconnected: seq<nat>
    ghost var dialed: seq<Dial>
    ghost var open: set<nat>
    ghost var validated: set<nat>

    constructor (pool: WatcherPool, history: DialHistory, filter: Peer -> bool)
      requires history.entries == map[]
      ensures this.pool == pool && this.history == history && this.filter == filter
      ensures Now() == FRESH
    {
      this.pool, this.history, this.filter := pool, history, filter;
      active, validatedCount, totalValidated, stopping, queue, activeSessions := 0, 0, 0, false, [], [];
      disconnected, dialed, open, validated := [], [], {}, {};
    }

    ghost function Cfg(): Config { Config(pool.maxTotal, pool.maxPerChain, history.expiry, filter) }

    ghost function Now(): Sched
      reads this, history
    {
      Sched(active, validatedCount, totalValidated, stopping, queue, history.entries, activeSessions, disconnected,
            dialed, open, validated)
    }

    /** The scheduler, the pool's total and the clock's position. */
    ghost function All(): Pooled
      reads this, pool, history, history.clock
    { Pooled(Now(), pool.activeTotal, history.clock.at) }

    /** Takes a slot and enters the node in the history; the coroutine itself starts later. */
    method TakeSlot(peer: Peer)
      modifies this, pool, history, history.clock
      ensures Now() == Spawn(Cfg(), old(Now()), peer, history.clock.readings(old(history.clock.at)))
      ensures pool.activeTotal == old(pool.activeTotal) + 1 && history.clock.at == old(history.clock.at) + 1
    {
      active := active + 1;
      pool.activeTotal := pool.activeTotal + 1;
      ghost var now := history.clock.readings(history.clock.at);
      history.Add(peer.node);
      open := open + {|dialed|};
      dialed := dialed + [Dial(peer, now)];
    }

    method Enqueue(peer: Peer)
      modifies this, pool, history, history.clock
      ensures All() ==
              Scheduler.Enqueue(Cfg(), old(Now()), old(pool.activeTotal), peer, history.clock.readings,
                                old(history.clock.at))
    {
      if stopping { return; }
      if !filter(peer) { return; }
      history.Expire();
      var seen := history.Has(peer.node);
      if seen { return; }
      if active < pool.maxPerChain && pool.activeTotal < pool.maxTotal {
        TakeSlot(peer);
      } else {
        queue := queue + [peer];
      }
    }

    method DialFront()
      requires queue != []
      modifies this, pool, history, history.clock
      ensures All() == old(Front(Cfg(), Now(), pool.activeTotal, history.clock.readings, history.clock.at))
    {
      var peer := queue[0];
      queue := queue[1..];
      var seen := history.Has(peer.node);
      if !seen { TakeSlot(peer); }
    }

    method DrainQueue()
      modifies this, pool, history, history.clock
      ensures All() == old(Drain(Cfg(), Now(), pool.activeTotal, history.clock.readings, history.clock.at))
    {
      while active < pool.maxPerChain && pool.activeTotal < pool.maxTotal && queue != []
        invariant Drain(Cfg(), Now(), pool.activeTotal, history.clock.readings, history.clock.at) ==
                  old(Drain(Cfg(), Now(), pool.activeTotal, history.clock.readings, history.clock.at))
        decreases |queue|
      {
        ghost var before := queue;
        DialFront();
        assert queue == before[1..];
      }
    }

    method FreeSlot(ghost k: nat, wasValidated: bool)
      requires wasValidated <==> k in validated
      modifies this, pool
      ensures All() == old(Pooled(Freed(Now(), k), pool.activeTotal - 1, history.clock.at))
    {
      if wasValidated { validatedCount := validatedCount - 1; }
      active := active - 1;
      pool.activeTotal := pool.activeTotal - 1;
      open, validated := open - {k}, validated - {k};
    }

    /** Run by on_done of dial `k` after its feedback. */
    method Release(ghost k: nat, wasValidated: bool)
      requires wasValidated <==> k in validated
      modifies this, pool, history, history.clock
      ensures All() ==
              Scheduler.Release(Cfg(), old(Now()), old(pool.activeTotal), k, history.clock.readings,
                                old(history.clock.at))
    {
      FreeSlot(k, wasValidated);
      if stopping { return; }
      history.Expire();
      DrainQueue();
    }

    /** on_connected of dial `k`, which also names its session. */
    method Connected(k: nat)
      modifies this
      ensures Now() == Connect(old(Now()), k)
    {
      validated := validated + {k};
      validatedCount := validatedCount + 1;
      totalValidated := totalValidated + 1;
      activeSessions := activeSessions + [k];
    }

    /** `live` are the sessions that have not been destroyed; `told` are those it disconnects. */
    method Stop(live: set<nat>) returns (told: seq<nat>)
      modifies this
      ensures Now() == Scheduler.Stop(old(Now()), live) && disconnected == old(disconnected) + told
    {
      stopping := true;
      queue := [];
      told := [];
      for i := 0 to |activeSessions|
        invariant told == Living(activeSessions, i, live)
      {
        if activeSessions[i] in live { told := told + [activeSessions[i]]; }
      }
      disconnected := disconnected + told;
      activeSessions := [];
    }
  }
}
