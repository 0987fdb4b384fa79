/**
 Where a damage script puts things: one step at a time by position, and longer
 scripts as their steps in a fixed order.
 */
module ScriptLaws {
  import opened Arithmetic
  import opened Bytes
  import opened Gvsp
  import opened PacketScript

  // ---------------------------------------------------------------- one step

  /** A block as it is built: ids are positions, the leader first, the trailer last, data between. */
  predicate AsBuilt(ds: seq<Datagram>, block: nat) {
    && |ds| >= 2
    && (forall i :: 0 <= i < |ds| ==> ds[i].packetId == i && ds[i].blockId == block)
    && ds[0].kind.Leader? && ds[|ds| - 1].kind.Trailer?
    && (forall i :: 0 < i < |ds| - 1 ==> ds[i].kind.Payload?)
  }

  lemma {:induction false} BlocksAreAsBuilt(spec: BlockSpec, data: seq<byte>)
    ensures AsBuilt(Datagrams(spec, data), spec.blockId)
  {
    hide LeaderBytes, PayloadBytes, TrailerBytes, Chunks;
    var ds := Datagrams(spec, data);
    assert forall i :: 0 < i < |ds| - 1 ==>
             ds[i] == PayloadDatagram(spec, i, Chunks(data, CutStride(spec))[i - 1]);
  }

  /** A script of one step of one pass does that pass and no other. */
  lemma {:induction false} OneStep(s: ScriptStep, stage: Stage, ds: seq<Datagram>)
    requires ds != [] && s.block == ds[0].blockId && StageOf(s) == Some(stage)
    ensures Applied([s], ds) == ApplyStep(stage, s, ds)
  {
    hide ApplyStep;
    var mine := Mine([s], ds[0].blockId);
    NothingMine([], s.block);
    assert [s][1..] == [] && mine == [s] + [] == [s];
    forall other: Stage, l: seq<Datagram>
      ensures RunStage(other, [s], l) == if other == stage then ApplyStep(stage, s, l) else l
    {
      assert RunStage(other, [s], l) == RunStage(other, [], ApplyStep(other, s, l));
      if other != stage {
        OtherStage(other, s, l);
      }
    }
  }

  /** The first place of a packet id. */
  predicate FirstOf(ds: seq<Datagram>, id: nat, k: nat) {
    k < |ds| && ds[k].packetId == id && forall i :: 0 <= i < k ==> ds[i].packetId != id
  }

  predicate FirstKindAt(ds: seq<Datagram>, kind: PacketKind, k: nat) {
    k < |ds| && ds[k].kind == kind && forall i :: 0 <= i < k ==> ds[i].kind != kind
  }

  predicate FirstDataOf(ds: seq<Datagram>, id: nat, k: nat) {
    k < |ds| && IsPayload(ds[k], id) && forall i :: 0 <= i < k ==> !IsPayload(ds[i], id)
  }

  predicate LastDataAt(ds: seq<Datagram>, k: nat) {
    k < |ds| && ds[k].kind.Payload? && forall i :: k < i < |ds| ==> !ds[i].kind.Payload?
  }

  lemma {:induction false} FindsFirst(ds: seq<Datagram>, id: nat, kind: PacketKind, k: nat)
    ensures FirstOf(ds, id, k) ==> FindId(ds, id) == Some(k)
    ensures FirstKindAt(ds, kind, k) ==> FindKind(ds, kind) == Some(k)
    ensures FirstDataOf(ds, id, k) ==> FindPayload(ds, id) == Some(k)
    decreases |ds|
  {
    if ds != [] && k > 0 {
      FindsFirst(ds[1..], id, kind, k - 1);
      assert forall i :: 0 < i < |ds| ==> ds[i] == ds[1..][i - 1];
    }
  }

  lemma {:induction false} FindsLast(ds: seq<Datagram>, k: nat)
    requires LastDataAt(ds, k)
    ensures LastPayload(ds) == Some(k)
    decreases |ds|
  {
    if k < |ds| - 1 {
      FindsLast(ds[..|ds| - 1], k);
    }
  }

  /** A dropped packet is gone, and nothing else is. */
  lemma {:induction false} DropLands(ds: seq<Datagram>, block: nat, k: nat)
    requires AsBuilt(ds, block) && k < |ds|
    ensures Applied([Drop(block, k)], ds) == ds[..k] + ds[k + 1..]
  {
    hide Without, Applied, Mine;
    OneStep(Drop(block, k), Drops, ds);
    var a, b := ds[..k], ds[k + 1..];
    assert ds == a + ([ds[k]] + b);
    WithoutSplit(a, [ds[k]] + b, k);
    WithoutNone(a, k);
    WithoutNone(b, k);
    WithoutFirst(ds[k], b);
  }

  lemma {:induction false} WithoutFirst(d: Datagram, ds: seq<Datagram>)
    ensures Without([d] + ds, d.packetId) == Without(ds, d.packetId)
  {
    assert ([d] + ds)[1..] == ds;
  }

  lemma {:induction false} WithoutSplit(a: seq<Datagram>, b: seq<Datagram>, id: nat)
    ensures Without(a + b, id) == Without(a, id) + Without(b, id)
  {
    if a == [] {
      assert a + b == b;
    } else {
      WithoutSplit(a[1..], b, id);
      assert (a + b)[1..] == a[1..] + b;
      Associate([a[0]], Without(a[1..], id), Without(b, id));
    }
  }

  lemma {:induction false} WithoutNone(ds: seq<Datagram>, id: nat)
    requires forall i :: 0 <= i < |ds| ==> ds[i].packetId != id
    ensures Without(ds, id) == ds
  {
    if ds != [] {
      WithoutNone(ds[1..], id);
    }
  }

  /** The first packet of an id comes `n` places later, or last; the others keep their order around it. */
  lemma {:induction false} DelayLands(ds: seq<Datagram>, id: nat, k: nat, n: nat)
    requires FirstOf(ds, id, k)
    ensures var out := Applied([Delay(ds[0].blockId, id, n)], ds);
            var at := Min(k + n, |ds| - 1);
            && |out| == |ds| && out[at] == ds[k]
            && out[..at] + out[at + 1..] == ds[..k] + ds[k + 1..]
  {
    OneStep(Delay(ds[0].blockId, id, n), Delays, ds);
    FindsFirst(ds, id, Leader, k);
    var rest := Remove(ds, k);
    var at := Min(k + n, |ds| - 1);
    var out := Insert(rest, at, ds[k]);
    assert out[..at] == rest[..at] && out[at + 1..] == rest[at..];
    assert rest == rest[..at] + rest[at..];
  }

  /** A duplicate comes right behind the first packet of its id. */
  lemma {:induction false} DuplicateLands(ds: seq<Datagram>, id: nat, k: nat)
    requires FirstOf(ds, id, k)
    ensures Applied([Duplicate(ds[0].blockId, id)], ds) == ds[..k + 1] + [ds[k]] + ds[k + 1..]
  {
    OneStep(Duplicate(ds[0].blockId, id), Duplicates, ds);
    FindsFirst(ds, id, Leader, k);
  }

  /** The first leader is repeated right behind the first data packet of the id named. */
  lemma {:induction false} RepeatLands(ds: seq<Datagram>, id: nat, leader: nat, k: nat)
    requires FirstKindAt(ds, Leader, leader) && FirstDataOf(ds, id, k)
    ensures Applied([RepeatLeader(ds[0].blockId, id)], ds) == ds[..k + 1] + [ds[leader]] + ds[k + 1..]
  {
    OneStep(RepeatLeader(ds[0].blockId, id), Repeats, ds);
    FindsFirst(ds, id, Leader, leader);
    FindsFirst(ds, id, Leader, k);
  }

  /** An early trailer comes right before the last data packet. */
  lemma {:induction false} EarlyTrailerLands(ds: seq<Datagram>, t: nat, k: nat)
    requires FirstKindAt(ds, Trailer, t) && LastDataAt(ds[..t] + ds[t + 1..], k)
    ensures var rest := ds[..t] + ds[t + 1..];
            Applied([TrailerBeforeLastPayload(ds[0].blockId)], ds) == rest[..k] + [ds[t]] + rest[k..]
  {
    OneStep(TrailerBeforeLastPayload(ds[0].blockId), EarlyTrailers, ds);
    FindsFirst(ds, 0, Trailer, t);
    FindsLast(ds[..t] + ds[t + 1..], k);
  }

  /** In a block as it is built: packet `k` delayed, doubled or followed by the leader, and an early trailer. */
  lemma {:induction false} LandsInBlock(ds: seq<Datagram>, block: nat, k: nat, n: nat)
    requires AsBuilt(ds, block) && 0 < k < |ds| - 1
    ensures var out := Applied([Delay(block, k, n)], ds);
            var at := Min(k + n, |ds| - 1);
            |out| == |ds| && out[at] == ds[k] && out[..at] + out[at + 1..] == ds[..k] + ds[k + 1..]
    ensures Applied([Duplicate(block, k)], ds) == ds[..k + 1] + [ds[k]] + ds[k + 1..]
    ensures Applied([RepeatLeader(block, k)], ds) == ds[..k + 1] + [ds[0]] + ds[k + 1..]
    ensures Applied([TrailerBeforeLastPayload(block)], ds) == ds[..|ds| - 2] + [ds[|ds| - 1], ds[|ds| - 2]]
  {
    hide Applied, Mine;
    DelayLands(ds, k, k, n);
    DuplicateLands(ds, k, k);
    RepeatLands(ds, k, 0, k);
    var t := |ds| - 1;
    assert ds[..t] + ds[t + 1..] == ds[..t];
    EarlyTrailerLands(ds, t, t - 1);
    assert ds[..t][..t - 1] + [ds[t]] + ds[..t][t - 1..] == ds[..t - 1] + [ds[t], ds[t - 1]];
  }

  /** A dropped block sends nothing, and a script that does not name the block changes nothing. */
  lemma {:induction false} BlockWide(ds: seq<Datagram>, block: nat, steps: seq<ScriptStep>)
    requires AsBuilt(ds, block)
    ensures DropBlock(block) in steps ==> Applied(steps, ds) == []
    ensures (forall i :: 0 <= i < |steps| ==> steps[i].block != block) ==> Applied(steps, ds) == ds
  {
    var mine := Mine(steps, block);
    MineHolds(steps, block, DropBlock(block));
    if DropBlock(block) in steps {
      var i :| 0 <= i < |mine| && mine[i] == DropBlock(block);
      assert DropsBlock(mine);
    } else if forall i :: 0 <= i < |steps| ==> steps[i].block != block {
      NothingMine(steps, block);
    }
  }

  lemma {:induction false} NothingMine(steps: seq<ScriptStep>, block: nat)
    requires forall i :: 0 <= i < |steps| ==> steps[i].block != block
    ensures Mine(steps, block) == []
  {
    if steps != [] {
      NothingMine(steps[1..], block);
    }
  }

  lemma {:induction false} MineHolds(steps: seq<ScriptStep>, block: nat, s: ScriptStep)
    requires s.block == block
    ensures s in steps <==> s in Mine(steps, block)
  {
    if steps != [] {
      MineHolds(steps[1..], block, s);
      assert s in steps <==> s == steps[0] || s in steps[1..];
    }
  }

  // ---------------------------------------------------------------- longer scripts

  /** The order in which kinds of step act. */
  function Rank(s: ScriptStep): nat {
    match s
    case DropBlock(_) => 0
    case Drop(_, _) => 0
    case RepeatLeader(_, _) => 1
    case TrailerBeforeLastPayload(_) => 2
    case Delay(_, _, _) => 3
    case Duplicate(_, _) => 4
    case Interleave(_) => 5
  }

  function StageRank(stage: Stage): nat {
    match stage
    case Drops => 0
    case Repeats => 1
    case EarlyTrailers => 2
    case Delays => 3
    case Duplicates => 4
  }

  lemma {:induction false} MineSnoc(steps: seq<ScriptStep>, s: ScriptStep, block: nat)
    ensures Mine(steps + [s], block) == if s.block == block then Mine(steps, block) + [s] else Mine(steps, block)
  {
    if steps == [] {
      assert steps + [s] == [s] && [s][1..] == [];
    } else {
      MineSnoc(steps[1..], s, block);
      assert (steps + [s])[1..] == steps[1..] + [s];
    }
  }

  lemma {:induction false} RunStageSnoc(stage: Stage, steps: seq<ScriptStep>, s: ScriptStep, ds: seq<Datagram>)
    ensures RunStage(stage, steps + [s], ds) == ApplyStep(stage, s, RunStage(stage, steps, ds))
    decreases |steps|
  {
    hide ApplyStep;
    if steps == [] {
      assert steps + [s] == [s] && [s][1..] == [];
    } else {
      RunStageSnoc(stage, steps[1..], s, ApplyStep(stage, steps[0], ds));
      assert (steps + [s])[1..] == steps[1..] + [s];
    }
  }

  /** A pass none of whose steps is in the script leaves everything. */
  lemma {:induction false} StageIdle(stage: Stage, steps: seq<ScriptStep>, ds: seq<Datagram>)
    requires forall i :: 0 <= i < |steps| ==> StageOf(steps[i]) != Some(stage)
    ensures RunStage(stage, steps, ds) == ds
    decreases |steps|
  {
    hide ApplyStep;
    if steps != [] {
      OtherStage(stage, steps[0], ds);
      StageIdle(stage, steps[1..], ds);
    }
  }

  /** The same passes with one more step, which acts last of all those so far. */
  lemma {:induction false} AllStagesSnoc(mine: seq<ScriptStep>, s: ScriptStep, stage: Stage, ds: seq<Datagram>)
    requires StageOf(s) == Some(stage)
    requires forall i :: 0 <= i < |mine| && StageOf(mine[i]).Some? ==>
               StageRank(StageOf(mine[i]).value) <= StageRank(stage)
    ensures AllStages(mine + [s], ds) == ApplyStep(stage, s, AllStages(mine, ds))
  {
    hide ApplyStep, RunStage;
    forall other: Stage, l: seq<Datagram>
      ensures other != stage ==> RunStage(other, mine + [s], l) == RunStage(other, mine, l)
      ensures other == stage ==> RunStage(other, mine + [s], l) == ApplyStep(stage, s, RunStage(other, mine, l))
      ensures StageRank(other) > StageRank(stage) ==> RunStage(other, mine, l) == l
    {
      RunStageSnoc(other, mine, s, l);
      if other != stage {
        OtherStage(other, s, RunStage(other, mine, l));
      }
      if StageRank(other) > StageRank(stage) {
        StageIdle(other, mine, l);
      }
    }
  }

  /**
   A step added to a script whose steps act no later than it does acts on what
   the script left: steps in order of their kinds are done one after the other.
   */
  lemma {:induction false} StepsInOrder(steps: seq<ScriptStep>, s: ScriptStep, ds: seq<Datagram>, block: nat)
    requires ds != [] && s.block == block && !s.DropBlock? && !s.Interleave?
    requires forall i :: 0 <= i < |ds| ==> ds[i].blockId == block
    requires forall i :: 0 <= i < |steps| ==> Rank(steps[i]) <= Rank(s) && !steps[i].DropBlock?
    ensures Applied(steps + [s], ds) == Applied([s], Applied(steps, ds))
  {
    hide AllStages, ApplyStep;
    var mine := Mine(steps, block);
    var stage := StageOf(s).value;
    MineSnoc(steps, s, block);
    MineAmong(steps, block);
    assert !DropsBlock(mine) && !DropsBlock(mine + [s]);
    forall i | 0 <= i < |mine| && StageOf(mine[i]).Some?
      ensures StageRank(StageOf(mine[i]).value) <= StageRank(stage)
    {
      assert mine[i] in steps;
    }
    AllStagesSnoc(mine, s, stage, ds);
    var left := Applied(steps, ds);
    if left == [] {
      NothingStays(stage, s);
    } else {
      StaysInBlock(mine, ds, left[0]);
      OneStep(s, stage, left);
    }
  }

  lemma {:induction false} MineAmong(steps: seq<ScriptStep>, block: nat)
    ensures forall i :: 0 <= i < |Mine(steps, block)| ==> Mine(steps, block)[i] in steps
  {
    if steps != [] {
      MineAmong(steps[1..], block);
    }
  }

  lemma {:induction false} NothingStays(stage: Stage, s: ScriptStep)
    ensures ApplyStep(stage, s, []) == []
  {
  }

  /** What comes out of the passes went in. */
  lemma {:induction false} StaysInBlock(mine: seq<ScriptStep>, ds: seq<Datagram>, d: Datagram)
    requires d in AllStages(mine, ds)
    ensures d in ds
  {
    hide RunStage;
    var kept := RunStage(Drops, mine, ds);
    var repeated := RunStage(Repeats, mine, kept);
    var moved := RunStage(EarlyTrailers, mine, repeated);
    var delayed := RunStage(Delays, mine, moved);
    if d !in ds {
      NothingNew(Drops, mine, ds, d);
      NothingNew(Repeats, mine, kept, d);
      NothingNew(EarlyTrailers, mine, repeated, d);
      NothingNew(Delays, mine, moved, d);
      NothingNew(Duplicates, mine, delayed, d);
    }
  }
}
