/** The loops above the serial receiver: stopping the stream, starting it, and the driver's state switch. */
module SensorState {
  import opened CrcRegister
  import opened ModbusFrames
  import opened SerialReceiver
  import opened SerialStream
  import opened SerialTheorems
  import opened Wrappers

  /** What the port delivers in each call. */
  type World = nat -> seq<byte>

  function Listens(check: Check, s: State, world: World, n: nat): State {
    if n == 0 then s else Listen(check, Listens(check, s, world, n - 1), world(n - 1))
  }

  ghost predicate Silent(world: World) {
    forall k: nat :: world(k) == []
  }

  ghost predicate Fits(world: World) {
    forall k: nat :: |world(k)| <= BUFFER_SIZE
  }

  // ---------------------------------------------------------------- stopping the stream

  /** How many calls without a byte it takes until the stream counts as gone. */
  function CallsLeft(s: State): nat
    requires s.detectionTimer <= DETECTION_LIMIT + 1
  {
    DETECTION_LIMIT + 2 - s.detectionTimer
  }

  lemma {:induction false} SilentListens(check: Check, s: State, world: World, n: nat)
    requires Silent(world) && s.detected && s.detectionTimer <= DETECTION_LIMIT + 1 && n <= CallsLeft(s)
    ensures Listens(check, s, world, n).detected <==> n < CallsLeft(s)
    ensures n < CallsLeft(s) ==> Listens(check, s, world, n).detectionTimer == s.detectionTimer + n
  {
    if n > 0 {
      SilentListens(check, s, world, n - 1);
      ListenTimers(check, Listens(check, s, world, n - 1), world(n - 1));
    }
  }

  /** In every reachable state that detects a stream there are between 1 and 22 silent calls left. */
  lemma CallsLeftReachable(check: Check, run: seq<Label>)
    requires After(check, run).detected
    ensures After(check, run).detectionTimer <= DETECTION_LIMIT + 1 && 1 <= CallsLeft(After(check, run)) <= 22
  {
    AfterDetecting(check, run);
  }

  /**
   * `rq_com_stop_stream_after_boot`, cut off after `limit` iterations. Jam signals and calls of the
   * receiver take turns; once the device is silent the loop ends after twice the calls left.
   */
  method StopStreamAfterBoot(r: Receiver, world: World, limit: nat) returns (iterations: nat, jams: nat, listens: nat)
    requires r.Valid() && Fits(world)
    modifies r, r.incoming, r.kept, r.received, r.offset
    ensures r.Valid() && r.Contents() == Listens(CRC_CHECK, old(r.Contents()), world, listens)
    ensures iterations == jams + listens && (jams == listens || jams == listens + 1)
    ensures iterations < limit ==> !r.detected
    ensures Silent(world) && old(r.detected) && old(r.detectionTimer) <= DETECTION_LIMIT + 1 && limit > 44 ==>
              !r.detected && iterations == 2 * CallsLeft(old(r.Contents())) <= 44
  {
    ghost var s := r.Contents();
    iterations, jams, listens := 0, 0, 0;
    var counter := 0;
    while r.detected && iterations < limit
      invariant r.Valid() && r.Contents() == Listens(CRC_CHECK, s, world, listens)
      invariant iterations == jams + listens && counter == jams - listens && 0 <= counter <= 1
      invariant iterations <= limit && (!r.detected ==> counter == 0)
      invariant Silent(world) && s.detected && s.detectionTimer <= DETECTION_LIMIT + 1 ==>
                  listens <= CallsLeft(s) && (r.detected <==> listens < CallsLeft(s))
      decreases limit - iterations
    {
      iterations := iterations + 1;
      counter := counter + 1;
      if counter == 1 {
        jams := jams + 1;
      } else {
        r.ListenStream(world(listens));
        listens := listens + 1;
        counter := 0;
        if Silent(world) && s.detected && s.detectionTimer <= DETECTION_LIMIT + 1 {
          SilentListens(CRC_CHECK, s, world, listens);
        }
      }
    }
  }

  // ---------------------------------------------------------------- starting the stream

  /** None of the first `n` calls leaves the stream detected. */
  predicate NothingHeard(check: Check, s: State, world: World, n: nat) {
    n > 0 ==> !Listens(check, s, world, n).detected && NothingHeard(check, s, world, n - 1)
  }

  lemma {:induction false} HeardStaysHeard(check: Check, s: State, world: World, n: nat, limit: nat)
    requires n <= limit && !NothingHeard(check, s, world, n)
    ensures !NothingHeard(check, s, world, limit)
  {
    if n < limit {
      HeardStaysHeard(check, s, world, n, limit - 1);
    }
  }

  /**
   * `rq_com_start_stream`, cut off after `limit` calls of the receiver. The retry counter is never
   * advanced, so the loop is left only by hearing something: it reports success or goes on for ever,
   * and never reports the failure that its last line is for.
   */
  method StartStream(acknowledged: bool, r: Receiver, world: World, limit: nat) returns (rc: Option<int>)
    requires r.Valid() && Fits(world)
    modifies r, r.incoming, r.kept, r.received, r.offset
    ensures r.Valid() && (rc == Some(0) || rc == None)
    ensures acknowledged ==> rc == Some(0)
    ensures rc == None <==> !acknowledged && NothingHeard(CRC_CHECK, old(r.Contents()), world, limit)
  {
    if acknowledged {
      return Some(0);
    }
    ghost var s := r.Contents();
    var retries := 0;
    var n := 0;
    while retries < 5 && n < limit
      invariant r.Valid() && 0 <= n <= limit && retries == 0
      invariant r.Contents() == Listens(CRC_CHECK, s, world, n)
      invariant NothingHeard(CRC_CHECK, s, world, n)
      decreases limit - n
    {
      r.ListenStream(world(n));
      n := n + 1;
      if r.detected {
        assert r.Contents().detected;
        HeardStaysHeard(CRC_CHECK, s, world, n, limit);
        return Some(0);
      }
    }
    return None;
  }

  /** With a silent device the loop goes on for ever, however many calls are granted. */
  lemma {:induction false} SilenceIsNeverNoticed(check: Check, s: State, world: World, n: nat)
    requires Silent(world) && !s.detected
    ensures NothingHeard(check, s, world, n) && !Listens(check, s, world, n).detected
  {
    if n > 0 {
      SilenceIsNeverNoticed(check, s, world, n - 1);
      ListenTimers(check, Listens(check, s, world, n - 1), world(n - 1));
    }
  }

  // ---------------------------------------------------------------- the state switch

  datatype Phase = Init | ReadInfo | Start | Run

  class Machine {
    var phase: Phase
    var retries: nat

    constructor ()
      ensures phase == Init && retries == 0
    {
      phase, retries := Init, 0;
    }

    /** `rq_state_init_com`. */
    method InitCom(found: bool) returns (rc: int)
      modifies this`phase
      ensures rc == (if found then 0 else -1) && phase == if found then ReadInfo else old(phase)
    {
      if !found {
        return -1;
      }
      phase := ReadInfo;
      rc := 0;
    }

    method ReadInfoHighLevel()
      modifies this`phase
      ensures phase == Start
    {
      phase := Start;
    }

    /** `rq_state_start_stream`: the return to Init is overwritten at once. */
    method StartStreamPhase(rc: int)
      modifies this`phase
      ensures phase == Run
    {
      if rc == -1 {
        phase := Init;
      }
      phase := Run;
    }

    /** `rq_state_run`. */
    method RunPhase(r: Receiver, chunk: seq<byte>, maxRetries: nat)
      requires r.Valid() && |chunk| <= BUFFER_SIZE && phase == Run
      modifies this, r, r.incoming, r.kept, r.received, r.offset
      ensures r.Valid() && r.Contents() == Listen(CRC_CHECK, old(r.Contents()), chunk)
      ensures Supervised(phase, retries) == Supervise(old(Supervised(phase, retries)), r.valid, maxRetries)
    {
      r.ListenStream(chunk);
      if !r.valid {
        retries := retries + 1;
        if retries >= maxRetries {
          phase := Init;
          retries := 0;
        }
      } else {
        retries := 0;
      }
    }
  }

  datatype Supervision = Supervised(phase: Phase, retries: nat)

  /** One call in phase Run that ended with the stream valid, or not. */
  function Supervise(m: Supervision, valid: bool, maxRetries: nat): Supervision {
    if m.phase != Run then m
    else if valid then m.(retries := 0)
    else if m.retries + 1 >= maxRetries then Supervised(Init, 0)
    else m.(retries := m.retries + 1)
  }

  /** The machine after a number of calls, from when it entered Run. */
  function SuperviseAll(valids: seq<bool>, maxRetries: nat): Supervision {
    if valids == [] then Supervised(Run, 0)
    else Supervise(SuperviseAll(valids[..|valids| - 1], maxRetries), valids[|valids| - 1], maxRetries)
  }

  /** How many of the last calls in a row ended with an invalid stream. */
  function InvalidInARow(valids: seq<bool>): nat {
    if valids == [] || valids[|valids| - 1] then 0 else 1 + InvalidInARow(valids[..|valids| - 1])
  }

  function Tolerated(maxRetries: nat): nat {
    if maxRetries == 0 then 1 else maxRetries
  }

  predicate GaveUp(valids: seq<bool>, n: nat, maxRetries: nat)
    requires n <= |valids|
  {
    InvalidInARow(valids[..n]) >= Tolerated(maxRetries)
  }

  /** Run is left exactly after as many invalid calls in a row as there are retries, but at least one. */
  lemma {:induction false} LeavesRunExactly(valids: seq<bool>, maxRetries: nat)
    ensures SuperviseAll(valids, maxRetries).phase == Run || SuperviseAll(valids, maxRetries) == Supervised(Init, 0)
    ensures SuperviseAll(valids, maxRetries).phase == Init <==> exists n :: 0 <= n <= |valids| && GaveUp(valids, n, maxRetries)
    ensures SuperviseAll(valids, maxRetries).phase == Run ==> SuperviseAll(valids, maxRetries).retries == InvalidInARow(valids)
  {
    if valids == [] {
      assert valids[..0] == [];
    } else {
      var k := |valids| - 1;
      var before := valids[..k];
      LeavesRunExactly(before, maxRetries);
      assert valids[..k + 1] == valids;
      if SuperviseAll(before, maxRetries).phase == Init {
        var n :| 0 <= n <= k && GaveUp(before, n, maxRetries);
        assert before[..n] == valids[..n];
        assert GaveUp(valids, n, maxRetries);
      } else {
        forall n | 0 <= n <= k
          ensures !GaveUp(valids, n, maxRetries)
        {
          assert before[..n] == valids[..n];
          assert !GaveUp(before, n, maxRetries);
        }
        assert GaveUp(valids, k + 1, maxRetries) <==> InvalidInARow(valids) >= Tolerated(maxRetries);
      }
    }
  }
}
