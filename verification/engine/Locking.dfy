/** The locked operations as interleaved steps: the lock, the map and the counter change one at a time. */
module Locking {
  import opened Ranking
  import opened Items
  import opened Store

  /** Where the holder of the lock is: nothing done yet; the map changed but the counter not;
      between two entries of a sweep; about to unlock. */
  datatype Phase =
    | Started(op: Op)
    | Owing(op: Op, delta: int, todo: set<Key>)
    | Sweeping(op: Op, todo: set<Key>)
    | Finished(op: Op)

  datatype Holder = Free | Held(thread: nat, phase: Phase)

  /** before and log are history: the map when the lock was taken, and the operations released so far. */
  datatype State = State(data: Data, used: int, holder: Holder, before: Data, log: seq<Op>)

  datatype Step = Acquire(thread: nat, op: Op) | Act | Visit(key: Key) | EndSweep | Add | Release

  const INITIAL: State := State(map[], 0, Free, map[], [])

  predicate Enabled(s: State, step: Step) {
    match step
    case Acquire(_, _) => s.holder.Free?
    case Act => s.holder.Held? && s.holder.phase.Started?
    case Visit(key) => s.holder.Held? && s.holder.phase.Sweeping? && key in s.holder.phase.todo
    case EndSweep => s.holder.Held? && s.holder.phase.Sweeping? && s.holder.phase.todo == {}
    case Add => s.holder.Held? && s.holder.phase.Owing?
    case Release => s.holder.Held? && s.holder.phase.Finished?
  }

  /** The first change an operation makes once it holds the lock; Set compares with the counter. */
  function FirstChange(max: int, data: Data, used: int, op: Op): (Data, Phase) {
    match op
    case SetOp(key, item) =>
      var netDelta := ItemSize(key, item) - SizeAt(data, key);
      if used + netDelta > max then (data, Finished(op)) else (data[key := item], Owing(op, netDelta, {}))
    case GetOp(key, now, later) =>
      if key !in data then (data, Finished(op))
      else if Expired(data[key], now) then (data - {key}, Owing(op, -ItemSize(key, data[key]), {}))
      else (data[key := Touched(data[key], later)], Finished(op))
    case DeleteOp(key) =>
      if key in data then (data - {key}, Owing(op, -ItemSize(key, data[key]), {})) else (data, Finished(op))
    case SweepOp(now) => (data, Sweeping(op, data.Keys))
  }

  function VisitEntry(data: Data, op: Op, todo: set<Key>, key: Key): (Data, Phase) {
    if op.SweepOp? && key in data && Expired(data[key], op.now)
    then (data - {key}, Owing(op, -ItemSize(key, data[key]), todo - {key}))
    else (data, Sweeping(op, todo - {key}))
  }

  function Apply(max: int, s: State, step: Step): State
    requires Enabled(s, step)
  {
    match step
    case Acquire(thread, op) => s.(holder := Held(thread, Started(op)), before := s.data)
    case Act =>
      var (data, phase) := FirstChange(max, s.data, s.used, s.holder.phase.op);
      s.(data := data, holder := s.holder.(phase := phase))
    case Visit(key) =>
      var (data, phase) := VisitEntry(s.data, s.holder.phase.op, s.holder.phase.todo, key);
      s.(data := data, holder := s.holder.(phase := phase))
    case EndSweep => s.(holder := s.holder.(phase := Finished(s.holder.phase.op)))
    case Add =>
      var op := s.holder.phase.op;
      var next := if op.SweepOp? then Sweeping(op, s.holder.phase.todo) else Finished(op);
      s.(used := s.used + s.holder.phase.delta, holder := s.holder.(phase := next))
    case Release => s.(holder := Free, log := s.log + [s.holder.phase.op])
  }

  /** The same operations, run one after the other. */
  ghost function Replay(max: int, log: seq<Op>): Data {
    if log == [] then map[] else Effect(max, Replay(max, log[..|log| - 1]), log[|log| - 1])
  }

  /** What the map holds part way through an operation. */
  ghost predicate Underway(max: int, before: Data, data: Data, phase: Phase) {
    match phase
    case Started(_) => data == before
    case Owing(op, _, todo) =>
      if op.SweepOp? then todo <= before.Keys && data == Swept(before, op.now, todo)
      else data == Effect(max, before, op)
    case Sweeping(op, todo) => op.SweepOp? && todo <= before.Keys && data == Swept(before, op.now, todo)
    case Finished(op) => data == Effect(max, before, op)
  }

  function Debt(holder: Holder): int { if holder.Held? && holder.phase.Owing? then holder.phase.delta else 0 }

  ghost predicate Inv(max: int, s: State) {
    && 0 <= s.used <= max && 0 <= Bytes(s.data) <= max
    && s.used + Debt(s.holder) == Bytes(s.data)
    && match s.holder {
      case Free => s.data == Replay(max, s.log)
      case Held(_, phase) =>
        s.before == Replay(max, s.log) && Bytes(s.before) <= max && Underway(max, s.before, s.data, phase)
    }
  }

  lemma ActStep(max: int, data: Data, used: int, op: Op)
    requires used == Bytes(data) && 0 <= used <= max
    ensures var (data', phase) := FirstChange(max, data, used, op);
      && Underway(max, data, data', phase) && !phase.Started?
      && used + (if phase.Owing? then phase.delta else 0) == Bytes(data')
      && 0 <= Bytes(data') <= max
  {
    match op
    case SetOp(key, item) =>
      BytesWith(data, key, item);
      EffectWithinLimit(max, data, op);
    case GetOp(key, now, later) =>
      EffectWithinLimit(max, data, op);
      if key in data {
        BytesWith(data, key, data[key]);
        TouchKeepsBytes(data, key, later);
      }
    case DeleteOp(key) =>
      EffectWithinLimit(max, data, op);
      BytesWith(data, key, Item("", 0, [], 0, 0, None));
      assert key !in data ==> data - {key} == data;
    case SweepOp(now) =>
      assert Swept(data, now, data.Keys) == data;
  }

  lemma VisitStep(max: int, before: Data, data: Data, used: int, op: Op, todo: set<Key>, key: Key)
    requires used == Bytes(data) && Underway(max, before, data, Sweeping(op, todo)) && key in todo
    ensures var (data', phase) := VisitEntry(data, op, todo, key);
      && Underway(max, before, data', phase)
      && used + (if phase.Owing? then phase.delta else 0) == Bytes(data')
      && 0 <= Bytes(data') <= Bytes(data)
  {
    SweptNext(before, op.now, todo, key);
    BytesWith(data, key, data[key]);
    BytesLess(data, key);
  }

  /** Every step of every thread keeps the counter exact up to what the lock holder still owes. */
  lemma InvStep(max: int, s: State, step: Step)
    requires Inv(max, s) && Enabled(s, step)
    ensures Inv(max, Apply(max, s, step))
  {
    match step
    case Acquire(_, _) =>
    case Act => ActStep(max, s.data, s.used, s.holder.phase.op);
    case Visit(key) => VisitStep(max, s.before, s.data, s.used, s.holder.phase.op, s.holder.phase.todo, key);
    case EndSweep => assert Swept(s.before, s.holder.phase.op.now, {}) == Unexpired(s.before, s.holder.phase.op.now);
    case Add =>
    case Release => assert (s.log + [s.holder.phase.op])[..|s.log|] == s.log;
  }

  /** The steps, taken one after the other, lead from s to s'. */
  ghost predicate Leads(max: int, s: State, steps: seq<Step>, s': State)
    decreases |steps|
  {
    if steps == [] then s == s'
    else Enabled(s, steps[0]) && Leads(max, Apply(max, s, steps[0]), steps[1..], s')
  }

  lemma {:induction false} LeadsSafely(max: int, s: State, steps: seq<Step>, s': State)
    requires Inv(max, s) && Leads(max, s, steps, s')
    ensures Inv(max, s')
    decreases |steps|
  {
    if steps != [] {
      InvStep(max, s, steps[0]);
      LeadsSafely(max, Apply(max, s, steps[0]), steps[1..], s');
    }
  }

  /** In any interleaving a lock-free read of the counter is within the limit; when the lock is free
      the counter is exact and the map is what the finished operations give one after the other. */
  lemma EveryInterleaving(max: int, steps: seq<Step>, s: State)
    requires max >= 0 && Leads(max, INITIAL, steps, s)
    ensures 0 <= s.used <= max
    ensures s.holder.Free? ==> s.used == Bytes(s.data) && s.data == Replay(max, s.log)
  {
    assert Inv(max, INITIAL);
    LeadsSafely(max, INITIAL, steps, s);
  }
}
