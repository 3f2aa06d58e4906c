/** Least-loaded spawning and what it does to the distribution of tasks (src/controller.rs, src/worker.rs). */
module Spawning {
  import opened BusLegs

  datatype WorkerStats = WorkerStats(tasks: nat, isEmpty: bool)

  // The load is the task count cut down to 32 bits.
  function Load(stats: WorkerStats): nat {
    stats.tasks % 0x1_0000_0000
  }

  datatype ControlIn<+Ext, +SCfg> = InExt(ext: Ext) | InSpawn(cfg: SCfg) | StatsRequest | Shutdown

  // A control leg's queue.
  type ControlQueue<Ext, SCfg> = seq<(BusEventSource<nat>, ControlIn<Ext, SCfg>)>

  // The first worker of least load.
  ghost predicate IsBest(stats: seq<WorkerStats>, best: nat) {
    best < |stats|
    && (forall j :: 0 <= j < |stats| ==> Load(stats[best]) <= Load(stats[j]))
    && (forall j :: 0 <= j < best ==> Load(stats[best]) < Load(stats[j]))
  }

  function Best(stats: seq<WorkerStats>): (best: nat)
    requires stats != []
    ensures IsBest(stats, best)
  {
    if |stats| == 1 then 0
    else
      var n := |stats| - 1;
      var b := Best(stats[..n]);
      assert forall j :: 0 <= j < n ==> stats[..n][j] == stats[j];
      if Load(stats[n]) < Load(stats[b]) then n else b
  }

  lemma BestIsUnique(stats: seq<WorkerStats>, a: nat, b: nat)
    requires IsBest(stats, a) && IsBest(stats, b)
    ensures a == b
  {
    assert Load(stats[a]) <= Load(stats[b]) && Load(stats[b]) <= Load(stats[a]);
  }

  // What the controller keeps between messages.
  datatype Office<InE, OutE, SCfg> = Office(
    stats: seq<WorkerStats>, control: seq<ControlQueue<InE, SCfg>>, output: seq<OutE>)

  function Spawned<InE, OutE, SCfg>(o: Office<InE, OutE, SCfg>, cfg: SCfg): (r: Office<InE, OutE, SCfg>)
    requires 0 < |o.stats| == |o.control|
    ensures |r.stats| == |r.control| == |o.stats|
  {
    var b := Best(o.stats);
    o.(stats := o.stats[b := o.stats[b].(tasks := o.stats[b].tasks + 1)],
       control := o.control[b := o.control[b] + [(External, InSpawn(cfg))]])
  }

  function SpawnMany<InE, OutE, SCfg>(o: Office<InE, OutE, SCfg>, cfgs: seq<SCfg>): (r: Office<InE, OutE, SCfg>)
    requires 0 < |o.stats| == |o.control|
    ensures |r.stats| == |r.control| == |o.stats|
  {
    if cfgs == [] then o else Spawned(SpawnMany(o, cfgs[..|cfgs| - 1]), cfgs[|cfgs| - 1])
  }

  // --- The spread between the fullest and the emptiest worker ---

  ghost predicate SpreadAtMost(stats: seq<WorkerStats>, d: nat) {
    forall i, j :: 0 <= i < |stats| && 0 <= j < |stats| ==> stats[i].tasks <= stats[j].tasks + d
  }

  ghost predicate SpreadExactly(stats: seq<WorkerStats>, d: nat) {
    SpreadAtMost(stats, d)
    && exists i, j :: 0 <= i < |stats| && 0 <= j < |stats| && stats[i].tasks == stats[j].tasks + d
  }

  // The worker that gets the next task is not a fullest one.
  predicate BestHasRoom(stats: seq<WorkerStats>)
    requires stats != []
  {
    exists j :: 0 <= j < |stats| && stats[j].tasks > stats[Best(stats)].tasks
  }

  function AtLeastOne(d: nat): nat {
    if d > 1 then d else 1
  }

  /** A spawn leaves the spread at most max(spread, 1) if and only if all counts are equal or the first worker of least
      load is not a fullest one. */
  lemma SpawnSpreadExactly<InE, OutE, SCfg>(o: Office<InE, OutE, SCfg>, cfg: SCfg, d: nat)
    requires 0 < |o.stats| == |o.control| && SpreadExactly(o.stats, d)
    ensures SpreadAtMost(Spawned(o, cfg).stats, AtLeastOne(d)) <==> d == 0 || BestHasRoom(o.stats)
  {
    var b, after := Best(o.stats), Spawned(o, cfg).stats;
    if d > 0 && !BestHasRoom(o.stats) {
      var i, j :| 0 <= i < |o.stats| && 0 <= j < |o.stats| && o.stats[i].tasks == o.stats[j].tasks + d;
      assert o.stats[i].tasks <= o.stats[b].tasks;
      assert after[b].tasks == o.stats[b].tasks + 1 && after[j].tasks == o.stats[j].tasks;
      assert !(after[b].tasks <= after[j].tasks + AtLeastOne(d));
    }
  }

  /** While counts fit into 32 bits, it always does. */
  lemma SpawnKeepsSpread<InE, OutE, SCfg>(o: Office<InE, OutE, SCfg>, cfg: SCfg, d: nat)
    requires 0 < |o.stats| == |o.control| && SpreadAtMost(o.stats, d)
    requires forall i :: 0 <= i < |o.stats| ==> o.stats[i].tasks < 0x1_0000_0000
    ensures SpreadAtMost(Spawned(o, cfg).stats, AtLeastOne(d))
  {
    assert forall i :: 0 <= i < |o.stats| ==> Load(o.stats[i]) == o.stats[i].tasks;
  }

  /** So do any number of spawns between two reports. */
  lemma {:induction false} SpawnsKeepSpread<InE, OutE, SCfg>(o: Office<InE, OutE, SCfg>, cfgs: seq<SCfg>, d: nat)
    requires 0 < |o.stats| == |o.control| && SpreadAtMost(o.stats, d)
    requires forall i :: 0 <= i < |o.stats| ==> o.stats[i].tasks + |cfgs| < 0x1_0000_0000
    ensures SpreadAtMost(SpawnMany(o, cfgs).stats, AtLeastOne(d))
    ensures forall i :: 0 <= i < |o.stats| ==>
              o.stats[i].tasks <= SpawnMany(o, cfgs).stats[i].tasks <= o.stats[i].tasks + |cfgs|
  {
    if cfgs != [] {
      var n := |cfgs| - 1;
      var before := SpawnMany(o, cfgs[..n]);
      SpawnsKeepSpread(o, cfgs[..n], d);
      SpawnKeepsSpread(before, cfgs[n], AtLeastOne(d));
    }
  }

  // Beyond 32 bits it can fail: the fullest worker then counts as idle, and takes the next task as well.
  lemma TruncationUnbalances<InE, OutE>(o: Office<InE, OutE, int>)
    requires |o.stats| == |o.control| == 2
    requires o.stats[0].tasks == 0x1_0000_0000 && o.stats[1].tasks == 0xffff_ffff
    ensures SpreadExactly(o.stats, 1) && !BestHasRoom(o.stats) && !SpreadAtMost(Spawned(o, 0).stats, 1)
  {
    assert Load(o.stats[0]) == 0 && Load(o.stats[1]) == 0xffff_ffff;
    assert Best(o.stats) == 0;
    assert o.stats[0].tasks == o.stats[1].tasks + 1;
    SpawnSpreadExactly(o, 0, 1);
  }

  // --- The shares that idle workers get ---

  // Full rounds, and one more for the first workers.
  function Share(n: nat, w: nat, i: nat): nat
    requires i < w
  {
    n / w + if i < n % w then 1 else 0
  }

  lemma AtLeastOnce(k: int, w: nat)
    ensures k >= 1 ==> k * w >= w
  {
    if k >= 1 {
      assert k * w == (k - 1) * w + w;
    }
  }

  lemma QuotientUnique(x: int, w: nat, q: int, r: nat)
    requires r < w && x == q * w + r
    ensures x / w == q && x % w == r
  {
    var p := x / w;
    assert (p - q) * w == p * w - q * w && (q - p) * w == q * w - p * w;
    AtLeastOnce(p - q, w);
    AtLeastOnce(q - p, w);
  }

  lemma DivideShifted(q: nat, w: nat, m: nat)
    requires w > 0
    ensures (q * w + m) / w == q + m / w
    ensures m < w ==> m / w == 0
  {
    var a, b := m / w, m % w;
    assert q * w + m == (q + a) * w + b;
    QuotientUnique((q + a) * w + b, w, q + a, b);
    if m < w {
      QuotientUnique(m, w, 0, m);
    }
  }

  lemma ShareIsCeiling(n: nat, w: nat, i: nat)
    requires i < w
    ensures Share(n, w, i) == (n + w - 1 - i) / w
  {
    var q, r := n / w, n % w;
    assert n == q * w + r;
    var m := r + w - 1 - i;
    assert n + w - 1 - i == q * w + m;
    DivideShifted(q, w, m);
    if i < r {
      assert m == w + (r - 1 - i);
      DivideShifted(1, w, r - 1 - i);
    } else {
      DivideShifted(0, w, m);
    }
  }

  // The next task goes to the first worker that is one behind, and no full round is ever taken back.
  lemma NextShare(n: nat, w: nat, i: nat)
    requires i < w
    ensures Share(n + 1, w, i) == Share(n, w, i) + if i == n % w then 1 else 0
    ensures n / w <= (n + 1) / w
  {
    var q, r := n / w, n % w;
    assert n == q * w + r;
    if r + 1 < w {
      QuotientUnique(n + 1, w, q, r + 1);
    } else {
      assert (q + 1) * w == q * w + w;
      QuotientUnique(n + 1, w, q + 1, 0);
    }
  }

  lemma NoShare(w: nat, i: nat)
    requires i < w
    ensures Share(0, w, i) == 0
  {
    QuotientUnique(0, w, 0, 0);
  }

  // After n spawns in turn, the next one goes to worker n % w.
  lemma NextInTurn(stats: seq<WorkerStats>, n: nat)
    requires stats != [] && n / |stats| < 0xffff_ffff
    requires forall k :: 0 <= k < |stats| ==> stats[k].tasks == Share(n, |stats|, k)
    ensures Best(stats) == n % |stats|
  {
    assert forall k :: 0 <= k < |stats| ==> Load(stats[k]) == stats[k].tasks;
    assert IsBest(stats, n % |stats|);
    BestIsUnique(stats, n % |stats|, Best(stats));
  }

  lemma {:induction false} SpawnShares<InE, OutE, SCfg>(o: Office<InE, OutE, SCfg>, cfgs: seq<SCfg>, i: nat)
    requires 0 < |o.stats| == |o.control| && forall k :: 0 <= k < |o.stats| ==> o.stats[k].tasks == 0
    requires |cfgs| / |o.stats| < 0xffff_ffff && i < |o.stats|
    ensures SpawnMany(o, cfgs).stats[i].tasks == Share(|cfgs|, |o.stats|, i)
  {
    hide Share;
    var w := |o.stats|;
    if cfgs == [] {
      NoShare(w, i);
    } else {
      var n := |cfgs| - 1;
      var before := SpawnMany(o, cfgs[..n]);
      NextShare(n, w, i);
      forall k | 0 <= k < w
        ensures before.stats[k].tasks == Share(n, w, k)
      {
        SpawnShares(o, cfgs[..n], k);
      }
      NextInTurn(before.stats, n);
    }
  }

  /** Starting from idle workers, n spawns fill w workers in turn: worker i has the n-th part of them, rounded up for
      the first workers, as long as the counts fit into 32 bits. */
  lemma {:induction false} SpawnsFillInTurn<InE, OutE, SCfg>(o: Office<InE, OutE, SCfg>, cfgs: seq<SCfg>, i: nat)
    requires 0 < |o.stats| == |o.control| && forall k :: 0 <= k < |o.stats| ==> o.stats[k].tasks == 0
    requires |cfgs| / |o.stats| < 0xffff_ffff && i < |o.stats|
    ensures SpawnMany(o, cfgs).stats[i].tasks == (|cfgs| + |o.stats| - 1 - i) / |o.stats|
  {
    SpawnShares(o, cfgs, i);
    ShareIsCeiling(|cfgs|, |o.stats|, i);
  }
}
