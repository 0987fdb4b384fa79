/**
 The damage script: deterministic drops, repeats and reorderings of a block's
 datagrams, keyed by block and packet id.
 */
module PacketScript {
  import opened Arithmetic
  import opened Bytes
  import opened Gvsp

  datatype ScriptStep =
    | Drop(block: nat, packet: nat)
    | DropBlock(block: nat)
    | Duplicate(block: nat, packet: nat)
    | Delay(block: nat, packet: nat, places: nat)
    | TrailerBeforeLastPayload(block: nat)
    | RepeatLeader(block: nat, after: nat)
    | Interleave(block: nat)

  /** The passes over a block, in the order they run. */
  datatype Stage = Drops | Repeats | EarlyTrailers | Delays | Duplicates

  function Mine(steps: seq<ScriptStep>, block: nat): (r: seq<ScriptStep>)
    ensures forall s :: s in r ==> s.block == block
  {
    if steps == [] then []
    else if steps[0].block == block then [steps[0]] + Mine(steps[1..], block)
    else Mine(steps[1..], block)
  }

  // ---------------------------------------------------------------- one step on a list

  /** The position of the first datagram with this packet id. */
  function FindId(ds: seq<Datagram>, id: nat): (r: Option<nat>)
    ensures r.Some? ==> r.value < |ds| && ds[r.value].packetId == id
    ensures r.None? ==> forall i :: 0 <= i < |ds| ==> ds[i].packetId != id
  {
    if ds == [] then None
    else if ds[0].packetId == id then Some(0)
    else
      var r := FindId(ds[1..], id);
      assert r.None? ==> forall i :: 0 < i < |ds| ==> ds[i] == ds[1..][i - 1];
      if r.Some? then Some(r.value + 1) else None
  }

  function FindKind(ds: seq<Datagram>, kind: PacketKind): (r: Option<nat>)
    ensures r.Some? ==> r.value < |ds| && ds[r.value].kind == kind
    ensures r.None? ==> forall i :: 0 <= i < |ds| ==> ds[i].kind != kind
  {
    if ds == [] then None
    else if ds[0].kind == kind then Some(0)
    else
      var r := FindKind(ds[1..], kind);
      assert r.None? ==> forall i :: 0 < i < |ds| ==> ds[i] == ds[1..][i - 1];
      if r.Some? then Some(r.value + 1) else None
  }

  predicate IsPayload(d: Datagram, id: nat) {
    d.kind.Payload? && d.packetId == id
  }

  function FindPayload(ds: seq<Datagram>, id: nat): (r: Option<nat>)
    ensures r.Some? ==> r.value < |ds| && IsPayload(ds[r.value], id)
    ensures r.None? ==> forall i :: 0 <= i < |ds| ==> !IsPayload(ds[i], id)
  {
    if ds == [] then None
    else if IsPayload(ds[0], id) then Some(0)
    else
      var r := FindPayload(ds[1..], id);
      assert r.None? ==> forall i :: 0 < i < |ds| ==> ds[i] == ds[1..][i - 1];
      if r.Some? then Some(r.value + 1) else None
  }

  /** The position of the last data packet. */
  function LastPayload(ds: seq<Datagram>): (r: Option<nat>)
    ensures r.Some? ==> r.value < |ds| && ds[r.value].kind.Payload?
  {
    if ds == [] then None
    else if ds[|ds| - 1].kind.Payload? then Some(|ds| - 1)
    else LastPayload(ds[..|ds| - 1])
  }

  function Insert(ds: seq<Datagram>, at: nat, d: Datagram): (r: seq<Datagram>)
    requires at <= |ds|
    ensures |r| == |ds| + 1
  {
    ds[..at] + [d] + ds[at..]
  }

  function Remove(ds: seq<Datagram>, at: nat): (r: seq<Datagram>)
    requires at < |ds|
    ensures |r| == |ds| - 1
  {
    ds[..at] + ds[at + 1..]
  }

  function Without(ds: seq<Datagram>, id: nat): (r: seq<Datagram>)
    ensures forall i :: 0 <= i < |r| ==> r[i].packetId != id
  {
    if ds == [] then []
    else if ds[0].packetId != id then [ds[0]] + Without(ds[1..], id)
    else Without(ds[1..], id)
  }

  /** What a pass does with one step: nothing, unless the step belongs to the pass. */
  function ApplyStep(stage: Stage, s: ScriptStep, ds: seq<Datagram>): seq<Datagram> {
    if stage.Drops? && s.Drop? then Without(ds, s.packet)
    else if stage.Repeats? && s.RepeatLeader? then
      var leader := FindKind(ds, Leader);
      var pos := FindPayload(ds, s.after);
      if leader.Some? && pos.Some? then Insert(ds, pos.value + 1, ds[leader.value]) else ds
    else if stage.EarlyTrailers? && s.TrailerBeforeLastPayload? then
      var t := FindKind(ds, Trailer);
      if t.None? then ds
      else
        var rest := Remove(ds, t.value);
        var last := LastPayload(rest);
        Insert(rest, if last.Some? then last.value else |rest|, ds[t.value])
    else if stage.Delays? && s.Delay? then
      var pos := FindId(ds, s.packet);
      if pos.None? then ds
      else
        var rest := Remove(ds, pos.value);
        Insert(rest, Min(pos.value + s.places, |rest|), ds[pos.value])
    else if stage.Duplicates? && s.Duplicate? then
      var pos := FindId(ds, s.packet);
      if pos.None? then ds else Insert(ds, pos.value + 1, ds[pos.value])
    else ds
  }

  function RunStage(stage: Stage, steps: seq<ScriptStep>, ds: seq<Datagram>): seq<Datagram>
    decreases |steps|
  {
    if steps == [] then ds else RunStage(stage, steps[1..], ApplyStep(stage, steps[0], ds))
  }

  predicate DropsBlock(steps: seq<ScriptStep>) {
    exists i :: 0 <= i < |steps| && steps[i].DropBlock?
  }

  function AllStages(mine: seq<ScriptStep>, ds: seq<Datagram>): seq<Datagram> {
    RunStage(Duplicates, mine,
      RunStage(Delays, mine,
        RunStage(EarlyTrailers, mine,
          RunStage(Repeats, mine,
            RunStage(Drops, mine, ds)))))
  }

  function Applied(steps: seq<ScriptStep>, ds: seq<Datagram>): seq<Datagram> {
    if ds == [] then []
    else
      var mine := Mine(steps, ds[0].blockId);
      if DropsBlock(mine) then [] else AllStages(mine, ds)
  }

  // ---------------------------------------------------------------- the script as it runs

  method RunPass(stage: Stage, mine: seq<ScriptStep>, before: seq<Datagram>) returns (ds: seq<Datagram>)
    ensures ds == RunStage(stage, mine, before)
  {
    ds := before;
    assert mine[0..] == mine;
    for i := 0 to |mine|
      invariant RunStage(stage, mine[i..], ds) == RunStage(stage, mine, before)
    {
      assert mine[i..][1..] == mine[i + 1..];
      ds := ApplyStep(stage, mine[i], ds);
    }
  }

  /** The script as the sender runs it: nothing for a dropped block, else the five passes over its own steps. */
  method Apply(steps: seq<ScriptStep>, datagrams: seq<Datagram>) returns (out: seq<Datagram>)
    ensures out == Applied(steps, datagrams)
  {
    if datagrams == [] {
      return [];
    }
    var mine := Mine(steps, datagrams[0].blockId);
    for i := 0 to |mine|
      invariant forall k :: 0 <= k < i ==> !mine[k].DropBlock?
    {
      if mine[i].DropBlock? {
        return [];
      }
    }
    out := RunPass(Drops, mine, datagrams);
    out := RunPass(Repeats, mine, out);
    out := RunPass(EarlyTrailers, mine, out);
    out := RunPass(Delays, mine, out);
    out := RunPass(Duplicates, mine, out);
  }

  // ---------------------------------------------------------------- only the order within a kind counts

  function StageOf(s: ScriptStep): Option<Stage> {
    match s
    case Drop(_, _) => Some(Drops)
    case RepeatLeader(_, _) => Some(Repeats)
    case TrailerBeforeLastPayload(_) => Some(EarlyTrailers)
    case Delay(_, _, _) => Some(Delays)
    case Duplicate(_, _) => Some(Duplicates)
    case _ => None
  }

  /** The steps of one pass, in the order they were added. */
  function Select(stage: Stage, steps: seq<ScriptStep>): seq<ScriptStep> {
    if steps == [] then []
    else if StageOf(steps[0]) == Some(stage) then [steps[0]] + Select(stage, steps[1..])
    else Select(stage, steps[1..])
  }

  lemma {:induction false} OtherStage(stage: Stage, s: ScriptStep, ds: seq<Datagram>)
    requires StageOf(s) != Some(stage)
    ensures ApplyStep(stage, s, ds) == ds
  {
  }

  lemma {:induction false} StageSees(stage: Stage, steps: seq<ScriptStep>, ds: seq<Datagram>)
    ensures RunStage(stage, steps, ds) == RunStage(stage, Select(stage, steps), ds)
    decreases |steps|
  {
    hide ApplyStep;
    if steps != [] {
      StageSees(stage, steps[1..], ApplyStep(stage, steps[0], ds));
      if StageOf(steps[0]) == Some(stage) {
        assert Select(stage, steps)[1..] == Select(stage, steps[1..]);
      } else {
        OtherStage(stage, steps[0], ds);
        assert Select(stage, steps) == Select(stage, steps[1..]);
      }
    }
  }

  /**
   Two scripts whose steps for a block agree kind by kind damage it alike,
   however the kinds were interleaved when they were added.
   */
  lemma {:induction false} KindsInterleaveFreely(a: seq<ScriptStep>, b: seq<ScriptStep>, ds: seq<Datagram>)
    requires ds != []
    requires DropsBlock(Mine(a, ds[0].blockId)) <==> DropsBlock(Mine(b, ds[0].blockId))
    requires forall stage ::
               Select(stage, Mine(a, ds[0].blockId)) == Select(stage, Mine(b, ds[0].blockId))
    ensures Applied(a, ds) == Applied(b, ds)
  {
    var x, y := Mine(a, ds[0].blockId), Mine(b, ds[0].blockId);
    forall stage: Stage, l: seq<Datagram>
      ensures RunStage(stage, x, l) == RunStage(stage, y, l)
    {
      StageSees(stage, x, l);
      StageSees(stage, y, l);
    }
  }

  // ---------------------------------------------------------------- what comes out, counted

  /** A block's datagrams: told apart by packet id, one leader, all of one block. */
  ghost predicate IsBlock(ds: seq<Datagram>) {
    && (forall i, j :: 0 <= i < j < |ds| ==> ds[i].packetId != ds[j].packetId)
    && (forall i, j :: 0 <= i < j < |ds| ==> !(ds[i].kind.Leader? && ds[j].kind.Leader?))
  }

  lemma {:induction false} DatagramsAreBlock(spec: BlockSpec, data: seq<byte>)
    ensures IsBlock(Datagrams(spec, data))
  {
    DatagramIds(spec, data);
  }

  /** How often each datagram occurs. */
  function Times(ds: seq<Datagram>, d: Datagram): nat {
    multiset(ds)[d]
  }

  lemma {:induction false} InsertTimes(ds: seq<Datagram>, at: nat, x: Datagram, d: Datagram)
    requires at <= |ds|
    ensures Times(Insert(ds, at, x), d) == Times(ds, d) + (if d == x then 1 else 0)
  {
    assert ds == ds[..at] + ds[at..];
  }

  lemma {:induction false} RemoveTimes(ds: seq<Datagram>, at: nat, d: Datagram)
    requires at < |ds|
    ensures Times(Remove(ds, at), d) == Times(ds, d) - (if d == ds[at] then 1 else 0)
  {
    assert ds == ds[..at] + [ds[at]] + ds[at + 1..];
  }

  lemma {:induction false} WithoutTimes(ds: seq<Datagram>, id: nat, d: Datagram)
    ensures Times(Without(ds, id), d) == if d.packetId == id then 0 else Times(ds, d)
  {
    if ds != [] {
      WithoutTimes(ds[1..], id, d);
      assert ds == [ds[0]] + ds[1..];
    }
  }

  /** Every datagram of `ds` is one of the block's. */
  ghost predicate Among(ds: seq<Datagram>, block: seq<Datagram>) {
    forall i :: 0 <= i < |ds| ==> ds[i] in block
  }

  /** Whether some drop step names this packet. */
  predicate Dropped(steps: seq<ScriptStep>, packet: nat) {
    exists i :: 0 <= i < |steps| && steps[i].Drop? && steps[i].packet == packet
  }

  /** How many duplicate steps name this packet. */
  function DuplicatesOf(steps: seq<ScriptStep>, packet: nat): nat {
    if steps == [] then 0
    else (if steps[0].Duplicate? && steps[0].packet == packet then 1 else 0)
         + DuplicatesOf(steps[1..], packet)
  }

  predicate HasPayload(ds: seq<Datagram>, id: nat) {
    exists i :: 0 <= i < |ds| && IsPayload(ds[i], id)
  }

  /** How many repeat steps name a data packet that is there. */
  function RepeatsAfter(steps: seq<ScriptStep>, ds: seq<Datagram>): nat {
    if steps == [] then 0
    else (if steps[0].RepeatLeader? && HasPayload(ds, steps[0].after) then 1 else 0)
         + RepeatsAfter(steps[1..], ds)
  }

  /** The same, said of the whole block: repeat steps naming one of its data packets that no step drops. */
  function RepeatsInBlock(steps: seq<ScriptStep>, mine: seq<ScriptStep>, ds: seq<Datagram>): nat {
    if steps == [] then 0
    else (if steps[0].RepeatLeader? && HasPayload(ds, steps[0].after) && !Dropped(mine, steps[0].after)
          then 1 else 0)
         + RepeatsInBlock(steps[1..], mine, ds)
  }

  lemma {:induction false} KeptPayload(mine: seq<ScriptStep>, ds: seq<Datagram>, id: nat)
    ensures HasPayload(RunStage(Drops, mine, ds), id) <==> HasPayload(ds, id) && !Dropped(mine, id)
  {
    var kept := RunStage(Drops, mine, ds);
    if HasPayload(kept, id) {
      var i :| 0 <= i < |kept| && IsPayload(kept[i], id);
      DropsTimes(mine, ds, kept[i]);
      TimesIn(kept, kept[i]);
      TimesIn(ds, kept[i]);
    }
    if HasPayload(ds, id) && !Dropped(mine, id) {
      var i :| 0 <= i < |ds| && IsPayload(ds[i], id);
      DropsTimes(mine, ds, ds[i]);
      TimesIn(kept, ds[i]);
    }
  }

  lemma {:induction false} RepeatsAgree(steps: seq<ScriptStep>, mine: seq<ScriptStep>, ds: seq<Datagram>)
    ensures RepeatsAfter(steps, RunStage(Drops, mine, ds)) == RepeatsInBlock(steps, mine, ds)
  {
    if steps != [] {
      RepeatsAgree(steps[1..], mine, ds);
      if steps[0].RepeatLeader? {
        KeptPayload(mine, ds, steps[0].after);
      }
    }
  }

  lemma {:induction false} DropsTimes(steps: seq<ScriptStep>, ds: seq<Datagram>, d: Datagram)
    ensures Times(RunStage(Drops, steps, ds), d) == if Dropped(steps, d.packetId) then 0 else Times(ds, d)
    decreases |steps|
  {
    hide Without, Times;
    if steps != [] {
      var next := ApplyStep(Drops, steps[0], ds);
      DropsTimes(steps[1..], next, d);
      assert Dropped(steps, d.packetId) <==>
             (steps[0].Drop? && steps[0].packet == d.packetId) || Dropped(steps[1..], d.packetId) by {
        if Dropped(steps, d.packetId) {
          var i :| 0 <= i < |steps| && steps[i].Drop? && steps[i].packet == d.packetId;
          assert i > 0 ==> steps[i] == steps[1..][i - 1];
        }
        if Dropped(steps[1..], d.packetId) {
          var i :| 0 <= i < |steps[1..]| && steps[1..][i].Drop? && steps[1..][i].packet == d.packetId;
          assert steps[i + 1] == steps[1..][i];
        }
      }
      if steps[0].Drop? {
        WithoutTimes(ds, steps[0].packet, d);
      }
    }
  }

  lemma {:induction false} TimesIn(ds: seq<Datagram>, d: Datagram)
    ensures d in ds <==> Times(ds, d) > 0
  {
  }

  /** Lists with the same datagrams, however often, have the same data packets and leader. */
  ghost predicate SameMembers(a: seq<Datagram>, b: seq<Datagram>) {
    forall d :: d in a <==> d in b
  }

  lemma {:induction false} SameMembersFind(a: seq<Datagram>, b: seq<Datagram>, id: nat)
    requires SameMembers(a, b)
    ensures HasPayload(a, id) <==> HasPayload(b, id)
  {
    if HasPayload(a, id) {
      var i :| 0 <= i < |a| && IsPayload(a[i], id);
      assert a[i] in b;
    }
    if HasPayload(b, id) {
      var i :| 0 <= i < |b| && IsPayload(b[i], id);
      assert b[i] in a;
    }
  }

  lemma {:induction false} RepeatsSame(steps: seq<ScriptStep>, a: seq<Datagram>, b: seq<Datagram>)
    requires SameMembers(a, b)
    ensures RepeatsAfter(steps, a) == RepeatsAfter(steps, b)
  {
    if steps != [] {
      RepeatsSame(steps[1..], a, b);
      if steps[0].RepeatLeader? {
        SameMembersFind(a, b, steps[0].after);
      }
    }
  }

  /** Inserting a copy of a datagram that is there changes only how often it is there. */
  lemma {:induction false} InsertMembers(ds: seq<Datagram>, at: nat, x: Datagram)
    requires at <= |ds| && x in ds
    ensures SameMembers(Insert(ds, at, x), ds)
  {
  }

  lemma {:induction false} AmongSame(a: seq<Datagram>, b: seq<Datagram>, block: seq<Datagram>)
    requires SameMembers(a, b) && Among(b, block)
    ensures Among(a, block)
  {
    forall i | 0 <= i < |a| ensures a[i] in block {
      assert a[i] in b;
    }
  }

  /** The leaders of a list taken from a block are all the block's one leader. */
  lemma {:induction false} OneLeader(ds: seq<Datagram>, block: seq<Datagram>, i: nat, d: Datagram)
    requires IsBlock(block) && Among(ds, block) && i < |ds| && ds[i].kind.Leader?
    requires d in ds && d.kind.Leader?
    ensures d == ds[i]
  {
  }

  lemma {:induction false} OneOfId(ds: seq<Datagram>, block: seq<Datagram>, i: nat, d: Datagram)
    requires IsBlock(block) && Among(ds, block) && i < |ds|
    requires d in ds && d.packetId == ds[i].packetId
    ensures d == ds[i]
  {
  }

  lemma {:induction false} RepeatOne(s: ScriptStep, ds: seq<Datagram>, block: seq<Datagram>, d: Datagram)
    requires IsBlock(block) && Among(ds, block) && d in ds
    ensures var next := ApplyStep(Repeats, s, ds);
            && Among(next, block) && SameMembers(next, ds)
            && Times(next, d) == Times(ds, d)
               + (if s.RepeatLeader? && HasPayload(ds, s.after) && d.kind.Leader? then 1 else 0)
  {
    hide Insert, IsBlock, SameMembers, Among;
    var leader := FindKind(ds, Leader);
    assert Among(ds, block) && SameMembers(ds, ds) by { SameAsItself(ds); }
    if s.RepeatLeader? {
      var pos := FindPayload(ds, s.after);
      assert pos.Some? <==> HasPayload(ds, s.after);
      if leader.Some? && pos.Some? {
        InsertTimes(ds, pos.value + 1, ds[leader.value], d);
        InsertMembers(ds, pos.value + 1, ds[leader.value]);
        AmongSame(Insert(ds, pos.value + 1, ds[leader.value]), ds, block);
        if d.kind.Leader? {
          OneLeader(ds, block, leader.value, d);
        }
      }
    }
  }

  lemma {:induction false} SameAsItself(ds: seq<Datagram>)
    ensures SameMembers(ds, ds)
  {
  }

  lemma {:induction false} RepeatsTimes(
    steps: seq<ScriptStep>, ds: seq<Datagram>, block: seq<Datagram>, d: Datagram)
    requires IsBlock(block) && Among(ds, block) && d in ds
    ensures var out := RunStage(Repeats, steps, ds);
            && Among(out, block) && SameMembers(out, ds)
            && Times(out, d) == Times(ds, d) + (if d.kind.Leader? then RepeatsAfter(steps, ds) else 0)
    decreases |steps|
  {
    hide ApplyStep, IsBlock, Among;
    if steps != [] {
      var next := ApplyStep(Repeats, steps[0], ds);
      RepeatOne(steps[0], ds, block, d);
      RepeatsTimes(steps[1..], next, block, d);
      RepeatsSame(steps[1..], next, ds);
    }
  }

  /** Taking a datagram out and putting it back elsewhere. */
  lemma {:induction false} MoveTimes(ds: seq<Datagram>, from: nat, to: nat, d: Datagram)
    requires from < |ds| && to < |ds|
    ensures Times(Insert(Remove(ds, from), to, ds[from]), d) == Times(ds, d)
  {
    RemoveTimes(ds, from, d);
    InsertTimes(Remove(ds, from), to, ds[from], d);
  }

  lemma {:induction false} MoveOne(stage: Stage, s: ScriptStep, ds: seq<Datagram>, d: Datagram)
    requires stage.EarlyTrailers? || stage.Delays?
    ensures Times(ApplyStep(stage, s, ds), d) == Times(ds, d)
  {
    hide Insert, Remove;
    if stage.EarlyTrailers? && s.TrailerBeforeLastPayload? {
      var t := FindKind(ds, Trailer);
      if t.Some? {
        var rest := Remove(ds, t.value);
        var last := LastPayload(rest);
        MoveTimes(ds, t.value, if last.Some? then last.value else |rest|, d);
      }
    } else if stage.Delays? && s.Delay? {
      var pos := FindId(ds, s.packet);
      if pos.Some? {
        MoveTimes(ds, pos.value, Min(pos.value + s.places, |ds| - 1), d);
      }
    }
  }

  /** Early trailers and delays only move datagrams. */
  lemma {:induction false} MovesKeep(stage: Stage, steps: seq<ScriptStep>, ds: seq<Datagram>, d: Datagram)
    requires stage.EarlyTrailers? || stage.Delays?
    ensures Times(RunStage(stage, steps, ds), d) == Times(ds, d)
    decreases |steps|
  {
    hide ApplyStep;
    if steps != [] {
      MoveOne(stage, steps[0], ds, d);
      MovesKeep(stage, steps[1..], ApplyStep(stage, steps[0], ds), d);
    }
  }

  lemma {:induction false} DuplicateOne(s: ScriptStep, ds: seq<Datagram>, block: seq<Datagram>, d: Datagram)
    requires IsBlock(block) && Among(ds, block) && d in ds
    ensures var next := ApplyStep(Duplicates, s, ds);
            && Among(next, block) && d in next
            && Times(next, d) == Times(ds, d) + (if s.Duplicate? && s.packet == d.packetId then 1 else 0)
  {
    hide Insert, IsBlock, SameMembers, Among;
    if s.Duplicate? {
      var pos := FindId(ds, s.packet);
      if pos.Some? {
        var next := Insert(ds, pos.value + 1, ds[pos.value]);
        InsertTimes(ds, pos.value + 1, ds[pos.value], d);
        InsertMembers(ds, pos.value + 1, ds[pos.value]);
        AmongSame(next, ds, block);
        TimesIn(next, d);
        TimesIn(ds, d);
        if d.packetId == s.packet {
          OneOfId(ds, block, pos.value, d);
        }
      }
    }
  }

  lemma {:induction false} DuplicatesTimes(
    steps: seq<ScriptStep>, ds: seq<Datagram>, block: seq<Datagram>, d: Datagram)
    requires IsBlock(block) && Among(ds, block) && d in ds
    ensures Times(RunStage(Duplicates, steps, ds), d) == Times(ds, d) + DuplicatesOf(steps, d.packetId)
    decreases |steps|
  {
    hide ApplyStep, IsBlock, Among;
    if steps != [] {
      DuplicateOne(steps[0], ds, block, d);
      DuplicatesTimes(steps[1..], ApplyStep(Duplicates, steps[0], ds), block, d);
    }
  }

  lemma {:induction false} StepNothingNew(stage: Stage, s: ScriptStep, ds: seq<Datagram>, d: Datagram)
    requires d !in ds
    ensures d !in ApplyStep(stage, s, ds)
  {
    TimesIn(ds, d);
    TimesIn(ApplyStep(stage, s, ds), d);
    if stage.Drops? && s.Drop? {
      WithoutTimes(ds, s.packet, d);
    } else if stage.EarlyTrailers? || stage.Delays? {
      MoveOne(stage, s, ds, d);
    } else if stage.Repeats? && s.RepeatLeader? {
      var leader, pos := FindKind(ds, Leader), FindPayload(ds, s.after);
      if leader.Some? && pos.Some? {
        InsertTimes(ds, pos.value + 1, ds[leader.value], d);
      }
    } else if stage.Duplicates? && s.Duplicate? {
      var pos := FindId(ds, s.packet);
      if pos.Some? {
        InsertTimes(ds, pos.value + 1, ds[pos.value], d);
      }
    }
  }

  /** Nothing that was not there comes out of a pass. */
  lemma {:induction false} NothingNew(stage: Stage, steps: seq<ScriptStep>, ds: seq<Datagram>, d: Datagram)
    requires d !in ds
    ensures d !in RunStage(stage, steps, ds)
    decreases |steps|
  {
    hide ApplyStep;
    if steps != [] {
      StepNothingNew(stage, steps[0], ds, d);
      NothingNew(stage, steps[1..], ApplyStep(stage, steps[0], ds), d);
    }
  }

  /**
   What a script makes of a block, exactly: a packet some step drops, or of a
   dropped block, does not come out; every other packet comes out once, plus
   once for each duplicate step that names it, and the leader once more for
   each repeat step that names a data packet left in the block. Nothing else
   comes out.
   */
  lemma {:induction false} ScriptOutput(steps: seq<ScriptStep>, ds: seq<Datagram>, d: Datagram)
    requires IsBlock(ds) && ds != []
    ensures var mine := Mine(steps, ds[0].blockId);
            Times(Applied(steps, ds), d) ==
              if d !in ds || DropsBlock(mine) || Dropped(mine, d.packetId) then 0
              else 1 + DuplicatesOf(mine, d.packetId)
                   + (if d.kind.Leader? then RepeatsInBlock(mine, mine, ds) else 0)
  {
    var mine := Mine(steps, ds[0].blockId);
    if DropsBlock(mine) {
      return;
    }
    var kept := RunStage(Drops, mine, ds);
    var repeated := RunStage(Repeats, mine, kept);
    var moved := RunStage(EarlyTrailers, mine, repeated);
    var delayed := RunStage(Delays, mine, moved);
    RepeatsAgree(mine, mine, ds);
    DropsTimes(mine, ds, d);
    TimesIn(ds, d);
    TimesIn(kept, d);
    if d !in kept {
      NothingNew(Repeats, mine, kept, d);
      NothingNew(EarlyTrailers, mine, repeated, d);
      NothingNew(Delays, mine, moved, d);
      NothingNew(Duplicates, mine, delayed, d);
    } else {
      KeptAmong(mine, ds);
      RepeatsTimes(mine, kept, ds, d);
      MovesKeep(EarlyTrailers, mine, repeated, d);
      MovesKeep(Delays, mine, moved, d);
      TimesIn(delayed, d);
      MovedAmong(mine, repeated, ds);
      DuplicatesTimes(mine, delayed, ds, d);
      OnceInBlock(ds, d);
    }
  }

  lemma {:induction false} KeptAmong(steps: seq<ScriptStep>, ds: seq<Datagram>)
    ensures Among(RunStage(Drops, steps, ds), ds)
  {
    var kept := RunStage(Drops, steps, ds);
    forall i | 0 <= i < |kept| ensures kept[i] in ds {
      DropsTimes(steps, ds, kept[i]);
      TimesIn(kept, kept[i]);
      TimesIn(ds, kept[i]);
    }
  }

  lemma {:induction false} MovedAmong(steps: seq<ScriptStep>, ds: seq<Datagram>, block: seq<Datagram>)
    requires Among(ds, block)
    ensures Among(RunStage(Delays, steps, RunStage(EarlyTrailers, steps, ds)), block)
  {
    var moved := RunStage(EarlyTrailers, steps, ds);
    var out := RunStage(Delays, steps, moved);
    forall i | 0 <= i < |out| ensures out[i] in block {
      MovesKeep(EarlyTrailers, steps, ds, out[i]);
      MovesKeep(Delays, steps, moved, out[i]);
      TimesIn(out, out[i]);
      TimesIn(ds, out[i]);
    }
  }

  lemma {:induction false} OnceInBlock(ds: seq<Datagram>, d: Datagram)
    requires IsBlock(ds) && d in ds
    ensures Times(ds, d) == 1
  {
    var i :| 0 <= i < |ds| && ds[i] == d;
    assert ds == ds[..i] + [d] + ds[i + 1..];
    assert d !in ds[..i] && d !in ds[i + 1..];
  }

  // ---------------------------------------------------------------- what keeps its order

  /** The data packets with these ids, in order. */
  function Only(ds: seq<Datagram>, ids: set<nat>): seq<Datagram> {
    if ds == [] then []
    else if ds[0].kind.Payload? && ds[0].packetId in ids then [ds[0]] + Only(ds[1..], ids)
    else Only(ds[1..], ids)
  }

  lemma {:induction false} OnlyAppend(a: seq<Datagram>, b: seq<Datagram>, ids: set<nat>)
    ensures Only(a + b, ids) == Only(a, ids) + Only(b, ids)
  {
    if a == [] {
      assert a + b == b;
    } else {
      OnlyAppend(a[1..], b, ids);
      assert (a + b)[1..] == a[1..] + b;
      Associate([a[0]], Only(a[1..], ids), Only(b, ids));
    }
  }

  predicate Outside(d: Datagram, ids: set<nat>) {
    !d.kind.Payload? || d.packetId !in ids
  }

  lemma {:induction false} OnlyInsert(ds: seq<Datagram>, at: nat, d: Datagram, ids: set<nat>)
    requires at <= |ds| && Outside(d, ids)
    ensures Only(Insert(ds, at, d), ids) == Only(ds, ids)
  {
    OnlyAppend(ds[..at], [d], ids);
    OnlyAppend(ds[..at] + [d], ds[at..], ids);
    OnlyAppend(ds[..at], ds[at..], ids);
    assert ds == ds[..at] + ds[at..] && [d][1..] == [];
    assert Only([d], ids) == [] && Only(ds[..at], ids) + [] == Only(ds[..at], ids);
  }

  lemma {:induction false} OnlyRemove(ds: seq<Datagram>, at: nat, ids: set<nat>)
    requires at < |ds| && Outside(ds[at], ids)
    ensures Only(Remove(ds, at), ids) == Only(ds, ids)
  {
    var rest := Remove(ds, at);
    OnlyInsert(rest, at, ds[at], ids);
    assert Insert(rest, at, ds[at]) == ds;
  }

  lemma {:induction false} OnlyWithout(ds: seq<Datagram>, id: nat, ids: set<nat>)
    requires id !in ids
    ensures Only(Without(ds, id), ids) == Only(ds, ids)
  {
    if ds != [] {
      OnlyWithout(ds[1..], id, ids);
      if ds[0].packetId != id {
        assert Without(ds, id)[1..] == Without(ds[1..], id);
      }
    }
  }

  /** No step drops, delays or duplicates a packet with one of these ids. */
  predicate Spares(s: ScriptStep, ids: set<nat>) {
    (s.Drop? || s.Delay? || s.Duplicate?) ==> s.packet !in ids
  }

  predicate AllSpare(steps: seq<ScriptStep>, ids: set<nat>) {
    forall i :: 0 <= i < |steps| ==> Spares(steps[i], ids)
  }

  lemma {:induction false} StepKeepsOrder(stage: Stage, s: ScriptStep, ds: seq<Datagram>, ids: set<nat>)
    requires Spares(s, ids)
    ensures Only(ApplyStep(stage, s, ds), ids) == Only(ds, ids)
  {
    hide Only, Insert, Remove;
    if stage.Drops? && s.Drop? {
      OnlyWithout(ds, s.packet, ids);
    } else if stage.Repeats? && s.RepeatLeader? {
      var leader, pos := FindKind(ds, Leader), FindPayload(ds, s.after);
      if leader.Some? && pos.Some? {
        OnlyInsert(ds, pos.value + 1, ds[leader.value], ids);
      }
    } else if stage.EarlyTrailers? && s.TrailerBeforeLastPayload? {
      var t := FindKind(ds, Trailer);
      if t.Some? {
        var rest := Remove(ds, t.value);
        var last := LastPayload(rest);
        OnlyRemove(ds, t.value, ids);
        OnlyInsert(rest, if last.Some? then last.value else |rest|, ds[t.value], ids);
      }
    } else if stage.Delays? && s.Delay? {
      var pos := FindId(ds, s.packet);
      if pos.Some? {
        var rest := Remove(ds, pos.value);
        OnlyRemove(ds, pos.value, ids);
        OnlyInsert(rest, Min(pos.value + s.places, |rest|), ds[pos.value], ids);
      }
    } else if stage.Duplicates? && s.Duplicate? {
      var pos := FindId(ds, s.packet);
      if pos.Some? {
        OnlyInsert(ds, pos.value + 1, ds[pos.value], ids);
      }
    }
  }

  lemma {:induction false} StageKeepsOrder(stage: Stage, steps: seq<ScriptStep>, ds: seq<Datagram>, ids: set<nat>)
    requires AllSpare(steps, ids)
    ensures Only(RunStage(stage, steps, ds), ids) == Only(ds, ids)
    decreases |steps|
  {
    hide ApplyStep, Spares;
    if steps != [] {
      StepKeepsOrder(stage, steps[0], ds, ids);
      StageKeepsOrder(stage, steps[1..], ApplyStep(stage, steps[0], ds), ids);
    }
  }

  /**
   The data packets no step drops, delays or duplicates come out once each and
   in order, whatever is done to the others.
   */
  lemma {:induction false} SparedKeepOrder(steps: seq<ScriptStep>, ds: seq<Datagram>, ids: set<nat>)
    requires ds != [] && !DropsBlock(Mine(steps, ds[0].blockId)) && AllSpare(Mine(steps, ds[0].blockId), ids)
    ensures Only(Applied(steps, ds), ids) == Only(ds, ids)
  {
    var mine := Mine(steps, ds[0].blockId);
    hide Only, Mine, RunStage, DropsBlock;
    var kept := RunStage(Drops, mine, ds);
    var repeated := RunStage(Repeats, mine, kept);
    var moved := RunStage(EarlyTrailers, mine, repeated);
    var delayed := RunStage(Delays, mine, moved);
    StageKeepsOrder(Drops, mine, ds, ids);
    StageKeepsOrder(Repeats, mine, kept, ids);
    StageKeepsOrder(EarlyTrailers, mine, repeated, ids);
    StageKeepsOrder(Delays, mine, moved, ids);
    StageKeepsOrder(Duplicates, mine, delayed, ids);
  }

  // ---------------------------------------------------------------- interleaving

  /** Turn about, one from each list, then what is left of either. */
  function Interleaved(a: seq<Datagram>, b: seq<Datagram>): seq<Datagram>
    decreases |a| + |b|
  {
    if a == [] then b
    else if b == [] then a
    else [a[0], b[0]] + Interleaved(a[1..], b[1..])
  }

  lemma {:induction false} InterleaveRound(a: seq<Datagram>, b: seq<Datagram>)
    ensures var x, y := Min(1, |a|), Min(1, |b|);
            Interleaved(a, b) == (a[..x] + b[..y]) + Interleaved(a[x..], b[y..])
  {
  }

  method InterleaveBlocks(a: seq<Datagram>, b: seq<Datagram>) returns (out: seq<Datagram>)
    ensures out == Interleaved(a, b)
  {
    out := [];
    var x, y := a, b;
    while x != [] || y != []
      invariant Interleaved(a, b) == out + Interleaved(x, y)
      decreases |x| + |y|
    {
      var nextX, nextY := x[..Min(1, |x|)], y[..Min(1, |y|)];
      InterleaveRound(x, y);
      out := out + (nextX + nextY);
      x, y := x[|nextX|..], y[|nextY|..];
    }
  }

  function OfBlock(ds: seq<Datagram>, block: nat): seq<Datagram> {
    if ds == [] then []
    else if ds[0].blockId == block then [ds[0]] + OfBlock(ds[1..], block)
    else OfBlock(ds[1..], block)
  }

  lemma {:induction false} OfBlockUniform(ds: seq<Datagram>, id: nat, block: nat)
    requires forall i :: 0 <= i < |ds| ==> ds[i].blockId == id
    ensures OfBlock(ds, block) == if id == block then ds else []
  {
    if ds != [] {
      OfBlockUniform(ds[1..], id, block);
    }
  }

  lemma {:induction false} OfBlockAppend(a: seq<Datagram>, b: seq<Datagram>, block: nat)
    ensures OfBlock(a + b, block) == OfBlock(a, block) + OfBlock(b, block)
  {
    if a == [] {
      assert a + b == b;
    } else {
      OfBlockAppend(a[1..], b, block);
      assert (a + b)[1..] == a[1..] + b;
      Associate([a[0]], OfBlock(a[1..], block), OfBlock(b, block));
    }
  }

  /** Interleaving two blocks loses neither: each comes back, in order, by its block id. */
  lemma {:induction false} InterleaveProjects(a: seq<Datagram>, b: seq<Datagram>, idA: nat, idB: nat)
    requires idA != idB
    requires forall i :: 0 <= i < |a| ==> a[i].blockId == idA
    requires forall i :: 0 <= i < |b| ==> b[i].blockId == idB
    ensures OfBlock(Interleaved(a, b), idA) == a
    ensures OfBlock(Interleaved(a, b), idB) == b
    decreases |a| + |b|
  {
    hide OfBlock;
    if a == [] || b == [] {
      OfBlockUniform(a, idA, idA);
      OfBlockUniform(a, idA, idB);
      OfBlockUniform(b, idB, idA);
      OfBlockUniform(b, idB, idB);
    } else {
      InterleaveProjects(a[1..], b[1..], idA, idB);
      var rest := Interleaved(a[1..], b[1..]);
      OfBlockAppend([a[0]] + [b[0]], rest, idA);
      OfBlockAppend([a[0]] + [b[0]], rest, idB);
      OfBlockAppend([a[0]], [b[0]], idA);
      OfBlockAppend([a[0]], [b[0]], idB);
      OfBlockUniform([a[0]], idA, idA);
      OfBlockUniform([a[0]], idA, idB);
      OfBlockUniform([b[0]], idB, idA);
      OfBlockUniform([b[0]], idB, idB);
      assert [a[0], b[0]] == [a[0]] + [b[0]];
      assert a == [a[0]] + a[1..] && b == [b[0]] + b[1..];
    }
  }
}
