/** Software zeroing of the force-torque stream: collecting samples for a bias and applying it. */
module Zeroing {
  import opened SampleParser
  import opened Wrappers

  /** The arithmetic that zeroing needs of its samples. */
  datatype Vector<!V> = Vector(zero: V, plus: (V, V) -> V, minus: (V, V) -> V, divide: (V, nat) -> V)

  function Sum<V>(ops: Vector<V>, samples: seq<V>): V {
    if samples == [] then ops.zero else ops.plus(Sum(ops, samples[..|samples| - 1]), samples[|samples| - 1])
  }

  datatype ZeroResult<V> = ZeroResult(generation: nat, offset: V)

  datatype State<V> = State(
    generation: nat,
    active: Option<nat>,
    target: nat,
    count: nat,
    sums: V,
    offset: V,
    completed: Option<ZeroResult<V>>,
    closed: bool)

  function Initial<V>(ops: Vector<V>): State<V> {
    State(0, None, 0, 0, ops.zero, ops.zero, None, false)
  }

  // ---------------------------------------------------------------- the operations, each under the lock

  function Request<V>(ops: Vector<V>, s: State<V>, sampleCount: nat): State<V> {
    s.(generation := s.generation + 1, active := Some(s.generation + 1), target := sampleCount, count := 0, sums := ops.zero)
  }

  function ResetProgress<V>(ops: Vector<V>, s: State<V>): State<V> {
    if s.active.None? then s else s.(count := 0, sums := ops.zero)
  }

  /** What `process` returns: a corrected sample, a completed result, or neither. */
  datatype Outcome<V> = Corrected(sample: V) | Collected | Completed(result: ZeroResult<V>)

  function OutcomeOf<V>(ops: Vector<V>, s: State<V>, sample: V): Outcome<V> {
    if s.active.None? then Corrected(ops.minus(sample, s.offset))
    else if s.count + 1 < s.target then Collected
    else Completed(ZeroResult(s.active.value, ops.divide(ops.plus(s.sums, sample), s.count + 1)))
  }

  function Process<V>(ops: Vector<V>, s: State<V>, sample: V): State<V> {
    if s.active.None? then s
    else
      var u := s.(sums := ops.plus(s.sums, sample), count := s.count + 1);
      if u.count < u.target then u
      else
        var offset := ops.divide(u.sums, u.count);
        u.(offset := offset, completed := Some(ZeroResult(s.active.value, offset)), active := None)
  }

  function Cancel<V>(s: State<V>, generation: nat): State<V> {
    if s.active == Some(generation) then s.(active := None) else s
  }

  function Close<V>(s: State<V>): State<V> {
    s.(closed := true, active := None)
  }

  /** One look of a waiting caller: it returns a result, gives up, or goes back to sleep. */
  datatype Look<V> = Return(result: ZeroResult<V>) | GiveUp | Sleep

  function LookFor<V>(s: State<V>, generation: nat, late: bool): Look<V> {
    if s.closed then GiveUp
    else if s.completed.Some? && s.completed.value.generation == generation then Return(s.completed.value)
    else if s.active != Some(generation) then GiveUp
    else if late then GiveUp
    else Sleep
  }

  datatype RequestError = NoSamples

  // ---------------------------------------------------------------- six axes

  const ZERO := Sample(0.0, 0.0, 0.0, 0.0, 0.0, 0.0)

  function Plus(a: Sample, b: Sample): Sample {
    Sample(a.fx + b.fx, a.fy + b.fy, a.fz + b.fz, a.tx + b.tx, a.ty + b.ty, a.tz + b.tz)
  }

  function Minus(a: Sample, b: Sample): Sample {
    Sample(a.fx - b.fx, a.fy - b.fy, a.fz - b.fz, a.tx - b.tx, a.ty - b.ty, a.tz - b.tz)
  }

  function DividedBy(a: Sample, n: nat): Sample {
    if n == 0 then a
    else
      var d := n as real;
      Sample(a.fx / d, a.fy / d, a.fz / d, a.tx / d, a.ty / d, a.tz / d)
  }

  const WRENCH: Vector<Sample> := Vector(ZERO, Plus, Minus, DividedBy)

  // ---------------------------------------------------------------- the manager

  class Manager {
    var generation: nat
    var active: Option<nat>
    var target: nat
    var count: nat
    var sums: Sample
    var offset: Sample
    var completed: Option<ZeroResult<Sample>>
    var closed: bool

    ghost function Contents(): State<Sample>
      reads this
    {
      State(generation, active, target, count, sums, offset, completed, closed)
    }

    constructor ()
      ensures Contents() == Initial(WRENCH)
    {
      generation, active, target, count := 0, None, 0, 0;
      sums, offset, completed, closed := ZERO, ZERO, None, false;
    }

    method RequestZero(sampleCount: int) returns (r: Result<nat, RequestError>)
      modifies this`generation, this`active, this`target, this`count, this`sums
      ensures r.Success? <==> sampleCount > 0
      ensures Contents() == if sampleCount > 0 then Request(WRENCH, old(Contents()), sampleCount) else old(Contents())
      ensures r.Success? ==> r.value == generation
    {
      if sampleCount <= 0 {
        return Failure(NoSamples);
      }
      generation := generation + 1;
      active := Some(generation);
      target := sampleCount;
      count := 0;
      sums := ZERO;
      return Success(generation);
    }

    method Restart()
      modifies this`count, this`sums
      ensures Contents() == ResetProgress(WRENCH, old(Contents()))
    {
      if active.None? {
        return;
      }
      count := 0;
      sums := ZERO;
    }

    method ProcessSample(sample: Sample) returns (r: Outcome<Sample>)
      modifies this`sums, this`count, this`offset, this`completed, this`active
      ensures Contents() == Process(WRENCH, old(Contents()), sample)
      ensures r == OutcomeOf(WRENCH, old(Contents()), sample)
    {
      if active.None? {
        return Corrected(Minus(sample, offset));
      }
      sums := Plus(sums, sample);
      count := count + 1;
      if count < target {
        return Collected;
      }
      var finished := active.value;
      offset := DividedBy(sums, count);
      var result := ZeroResult(finished, offset);
      completed := Some(result);
      active := None;
      return Completed(result);
    }

    method CancelGeneration(g: nat)
      modifies this`active
      ensures Contents() == Cancel(old(Contents()), g)
    {
      if active == Some(g) {
        active := None;
      }
    }

    method CloseManager()
      modifies this`closed, this`active
      ensures Contents() == Close(old(Contents()))
    {
      closed := true;
      active := None;
    }
  }

  /** `wait`: looks at the states it wakes up to, until one of them or the deadline ends it; `Sleep` is a wait that goes on. */
  method Wait<V>(generation: nat, states: seq<State<V>>, deadline: nat) returns (r: Look<V>, looks: nat)
    ensures looks <= |states|
    ensures forall k :: 0 <= k && k + 1 < looks ==> LookFor(states[k], generation, k >= deadline) == Sleep
    ensures r != Sleep ==> looks > 0 && r == LookFor(states[looks - 1], generation, looks - 1 >= deadline)
    ensures r == Sleep ==> looks == |states| && forall k :: 0 <= k < |states| ==> LookFor(states[k], generation, k >= deadline) == Sleep
    ensures r.Return? ==> r.result.generation == generation
  {
    looks := 0;
    while looks < |states|
      invariant looks <= |states|
      invariant forall k :: 0 <= k < looks ==> LookFor(states[k], generation, k >= deadline) == Sleep
    {
      var s := states[looks];
      var late := looks >= deadline;
      looks := looks + 1;
      if s.closed {
        return GiveUp, looks;
      }
      if s.completed.Some? && s.completed.value.generation == generation {
        return Return(s.completed.value), looks;
      }
      if s.active != Some(generation) {
        return GiveUp, looks;
      }
      if late {
        return GiveUp, looks;
      }
    }
    r := Sleep;
  }
}
