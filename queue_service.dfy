/** The queue scheduler: on each tick it reads the distinct bot ids that have
    pending messages, and for every one without a lock it creates the lock
    and launches that bot's worker. Locks are swept at startup and at
    shutdown. Workers run concurrently and release their own locks; the
    model takes the ids each tick reads and the locks released between ticks
    as inputs. */
module QueueService {
  import opened Records
  import Worker

  // ---------------------------------------------------------------------------
  // The pending query

  /** Bot ids of the pending records, in store order, with repeats. */
  function PendingIds(records: seq<Message>): (r: seq<string>)
    reads records
    ensures |r| <= |records|
    ensures forall x :: x in r <==> exists i :: 0 <= i < |records| && records[i].status == Pending && records[i].botId == x
    decreases |records|
  {
    if |records| == 0 then []
    else
      var init := PendingIds(records[..|records| - 1]);
      var m := records[|records| - 1];
      if m.status == Pending then init + [m.botId] else init
  }

  /** The first occurrence of each element, in order. */
  function Dedup(xs: seq<string>): (r: seq<string>)
    ensures Worker.Distinct(r)
    ensures forall x :: x in r <==> x in xs
    decreases |xs|
  {
    if |xs| == 0 then []
    else
      var init := Dedup(xs[..|xs| - 1]);
      if xs[|xs| - 1] in init then init else init + [xs[|xs| - 1]]
  }

  /** `Message.objects(status="pending").distinct(field="bot_id")`: every bot
      with a pending record, once each. */
  function PendingBots(records: seq<Message>): (r: seq<string>)
    reads records
    ensures Worker.Distinct(r)
    ensures forall x :: x in r <==> exists i :: 0 <= i < |records| && records[i].status == Pending && records[i].botId == x
  {
    Dedup(PendingIds(records))
  }

  // ---------------------------------------------------------------------------
  // One tick

  /** The bots a tick launches, in order, from the ids it reads and the locks
      held when it starts: an id is launched when it holds no lock, and the
      lock it then gets keeps a repeated id from launching twice. */
  function Launches(ids: seq<string>, locks: set<string>): seq<string>
    decreases |ids|
  {
    if |ids| == 0 then []
    else if ids[0] in locks then Launches(ids[1..], locks)
    else [ids[0]] + Launches(ids[1..], locks + {ids[0]})
  }

  /** A bot is launched exactly when it was read and held no lock, and no bot
      is launched twice in a tick, even when an id is read twice. */
  lemma {:induction false} LaunchesSpec(ids: seq<string>, locks: set<string>)
    ensures forall x :: x in Launches(ids, locks) <==> x in ids && x !in locks
    ensures Worker.Distinct(Launches(ids, locks))
    decreases |ids|
  {
    if |ids| > 0 {
      var x := ids[0];
      if x in locks {
        LaunchesSpec(ids[1..], locks);
        assert ids == [x] + ids[1..];
      } else {
        LaunchesSpec(ids[1..], locks + {x});
        assert ids == [x] + ids[1..];
        var rest := Launches(ids[1..], locks + {x});
        assert x !in rest;
        assert Launches(ids, locks) == [x] + rest;
        forall i, j | 0 <= i < j < |[x] + rest|
          ensures ([x] + rest)[i] != ([x] + rest)[j]
        {
          if i > 0 {
            assert ([x] + rest)[i] == rest[i - 1];
          }
        }
      }
    }
  }

  /** With distinct ids (as the query returns them), the launched bots are
      the read ids without a lock, in the order read. */
  lemma {:induction false} LaunchesFilter(ids: seq<string>, locks: set<string>)
    requires Worker.Distinct(ids)
    ensures Launches(ids, locks) == Unlocked(ids, locks)
    decreases |ids|
  {
    if |ids| > 0 {
      var x := ids[0];
      assert Worker.Distinct(ids[1..]);
      assert x !in ids[1..];
      LaunchesFilter(ids[1..], locks);
      if x !in locks {
        LaunchesFilter(ids[1..], locks + {x});
        UnlockedIgnores(ids[1..], locks, x);
      }
    }
  }

  /** The read ids that hold no lock, in order. */
  function Unlocked(ids: seq<string>, locks: set<string>): seq<string>
    decreases |ids|
  {
    if |ids| == 0 then []
    else if ids[0] in locks then Unlocked(ids[1..], locks)
    else [ids[0]] + Unlocked(ids[1..], locks)
  }

  lemma {:induction false} UnlockedIgnores(ids: seq<string>, locks: set<string>, x: string)
    requires x !in ids
    ensures Unlocked(ids, locks + {x}) == Unlocked(ids, locks)
    decreases |ids|
  {
    if |ids| > 0 {
      assert x != ids[0] && x !in ids[1..];
      UnlockedIgnores(ids[1..], locks, x);
    }
  }

  function Elements(ids: seq<string>): set<string> {
    set x | x in ids
  }

  /** The `for bot_id in ...` loop of one tick: create the lock, then launch. */
  method Tick(registry: LockRegistry, ids: seq<string>) returns (launched: seq<string>)
    modifies registry
    ensures registry.locks == old(registry.locks) + Elements(ids)
    ensures launched == Launches(ids, old(registry.locks))
  {
    launched := [];
    var i := 0;
    while i < |ids|
      invariant 0 <= i <= |ids|
      invariant registry.locks == old(registry.locks) + Elements(ids[..i])
      invariant launched + Launches(ids[i..], registry.locks) == Launches(ids, old(registry.locks))
    {
      var botId := ids[i];
      var locked := registry.IsLocked(botId);
      assert ids[i..] == [botId] + ids[i + 1..];
      assert ids[..i + 1] == ids[..i] + [botId];
      if !locked {
        registry.Create(botId);
        launched := launched + [botId];
      }
      i := i + 1;
    }
    assert ids[..i] == ids;
  }

  // ---------------------------------------------------------------------------
  // The service loop

  /** The locks held when tick `t` starts: none at startup; afterwards the
      locks after the previous tick, less those workers released since. */
  function LocksBefore(snapshots: seq<seq<string>>, released: seq<set<string>>, t: nat): set<string>
    requires t < |snapshots| && |released| == |snapshots|
  {
    if t == 0 then {}
    else (LocksBefore(snapshots, released, t - 1) + Elements(snapshots[t - 1])) - released[t]
  }

  /** The launches of the first `t` ticks, tick by tick. */
  function LaunchPlan(snapshots: seq<seq<string>>, released: seq<set<string>>, t: nat): seq<seq<string>>
    requires t <= |snapshots| && |released| == |snapshots|
  {
    if t == 0 then []
    else LaunchPlan(snapshots, released, t - 1) + [TickLaunches(snapshots, released, t - 1)]
  }

  /** The bots tick `t` launches. */
  function TickLaunches(snapshots: seq<seq<string>>, released: seq<set<string>>, t: nat): seq<string>
    requires t < |snapshots| && |released| == |snapshots|
  {
    Launches(snapshots[t], LocksBefore(snapshots, released, t))
  }

  lemma {:induction false} LaunchPlanSpec(snapshots: seq<seq<string>>, released: seq<set<string>>, t: nat)
    requires t <= |snapshots| && |released| == |snapshots|
    ensures |LaunchPlan(snapshots, released, t)| == t
    ensures forall k :: 0 <= k < t ==>
      LaunchPlan(snapshots, released, t)[k] == TickLaunches(snapshots, released, k)
  {
    if t > 0 {
      LaunchPlanSpec(snapshots, released, t - 1);
      var prev := LaunchPlan(snapshots, released, t - 1);
      var last := TickLaunches(snapshots, released, t - 1);
      assert LaunchPlan(snapshots, released, t) == prev + [last];
      forall k | 0 <= k < t
        ensures LaunchPlan(snapshots, released, t)[k] == TickLaunches(snapshots, released, k)
      {
        if k < t - 1 {
          assert (prev + [last])[k] == prev[k];
        }
      }
    }
  }

  /** `service_main`: sweep the locks, run one tick per read until the exit
      event is set (here: after the last read), sweep again. `released[t]`
      holds the locks workers deleted before tick `t`. */
  method ServiceMain(registry: LockRegistry, snapshots: seq<seq<string>>, released: seq<set<string>>)
    returns (launched: seq<seq<string>>)
    requires |released| == |snapshots|
    modifies registry
    ensures registry.locks == {}
    ensures |launched| == |snapshots|
    ensures forall t :: 0 <= t < |snapshots| ==> launched[t] == Launches(snapshots[t], LocksBefore(snapshots, released, t))
  {
    registry.DeleteAll();
    launched := [];
    var t := 0;
    while t < |snapshots|
      invariant 0 <= t <= |snapshots|
      invariant launched == LaunchPlan(snapshots, released, t)
      invariant t < |snapshots| ==> registry.locks - released[t] == LocksBefore(snapshots, released, t)
    {
      registry.locks := registry.locks - released[t];
      var ticked := Tick(registry, snapshots[t]);
      assert t + 1 < |snapshots| ==>
        registry.locks - released[t + 1] == LocksBefore(snapshots, released, t + 1);
      launched := launched + [ticked];
      t := t + 1;
    }
    LaunchPlanSpec(snapshots, released, t);
    registry.DeleteAll();
  }

  /** Over a whole run, a bot is launched on a tick only when it was read on
      that tick and held no lock when the tick started, and at most once per
      tick. */
  lemma RunLaunches(snapshots: seq<seq<string>>, released: seq<set<string>>, t: nat, x: string)
    requires |released| == |snapshots| && t < |snapshots|
    ensures x in Launches(snapshots[t], LocksBefore(snapshots, released, t)) <==>
      x in snapshots[t] && x !in LocksBefore(snapshots, released, t)
    ensures Worker.Distinct(Launches(snapshots[t], LocksBefore(snapshots, released, t)))
  {
    LaunchesSpec(snapshots[t], LocksBefore(snapshots, released, t));
  }

  /** Between two releases a bot stays locked: once a tick reads it, a later
      tick does not launch it again unless a worker released its lock in
      between. */
  lemma {:induction false} LockedUntilReleased(snapshots: seq<seq<string>>, released: seq<set<string>>, t: nat, u: nat, x: string)
    requires |released| == |snapshots| && t < u < |snapshots|
    requires x in snapshots[t]
    requires forall k :: t < k <= u ==> x !in released[k]
    ensures x in LocksBefore(snapshots, released, u)
    ensures x !in Launches(snapshots[u], LocksBefore(snapshots, released, u))
    decreases u - t
  {
    if u > t + 1 {
      LockedUntilReleased(snapshots, released, t, u - 1, x);
    }
    LaunchesSpec(snapshots[u], LocksBefore(snapshots, released, u));
  }
}
