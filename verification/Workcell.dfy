/** The controller with the driver behind it, and with the simulator behind it. */
module DriverCell {
  import opened Backend
  import opened Messages
  import Controller
  import ControllerTheorems
  import Driver
  import DriverInvariants
  import DriverTheorems

  /** The controller's view of the backend is what the driver has done and published. */
  datatype System = System(control: Controller.System, driver: Driver.State)

  datatype Label = Control(move: Controller.Label) | Drive(work: Driver.Label)

  const BEGIN := System(Controller.INITIAL, Driver.INITIAL)

  predicate Delivers(sent: set<Command>, l: Driver.Label) {
    l.TestCommand? || l.Receive? ==> l.command in sent
  }

  /** One step of either side; commands reach the driver only after they were sent, in any order, or never. */
  ghost function Step(config: Driver.Config, x: System, l: Label): System {
    match l
    case Control(c) => if c.Work? then x else x.(control := Controller.Step(x.control, c))
    case Drive(d) =>
      if Delivers(x.control.sent, d) then
        var driver := Driver.Step(config, x.driver, d);
        System(x.control.(view := driver.view), driver)
      else x
  }

  ghost function After(config: Driver.Config, run: seq<Label>): System {
    if run == [] then BEGIN else Step(config, After(config, run[..|run| - 1]), run[|run| - 1])
  }

  lemma SentGrows(s: Controller.System, l: Controller.Label)
    ensures s.sent <= Controller.Step(s, l).sent
    ensures !l.Work? ==> Controller.Step(s, l).view == s.view
  {
  }

  lemma InvariantWidens(s: Driver.State, sent: set<Command>, sent': set<Command>)
    requires DriverInvariants.Invariant(s, sent) && sent <= sent'
    ensures DriverInvariants.Invariant(s, sent')
  {
  }

  lemma AbstractStep(run: seq<Controller.Label>, l: Controller.Label)
    ensures Controller.After(run + [l]) == Controller.Step(Controller.After(run), l)
  {
    assert (run + [l])[..|run|] == run;
  }

  /** Every run with the driver is a run against the contract, so what holds of those holds of this. */
  lemma {:induction false} RunIsContractRun(config: Driver.Config, run: seq<Label>) returns (model: seq<Controller.Label>)
    ensures Controller.After(model) == After(config, run).control
    ensures After(config, run).control.view == After(config, run).driver.view
    ensures DriverInvariants.Invariant(After(config, run).driver, After(config, run).control.sent)
  {
    if run == [] {
      model := [];
    } else {
      model := RunIsContractRun(config, run[..|run| - 1]);
      var x := After(config, run[..|run| - 1]);
      match run[|run| - 1]
      case Control(c) =>
        if !c.Work? {
          SentGrows(x.control, c);
          InvariantWidens(x.driver, x.control.sent, Controller.Step(x.control, c).sent);
          AbstractStep(model, c);
          model := model + [c];
        }
      case Drive(d) =>
        if Delivers(x.control.sent, d) {
          DriverTheorems.DriverIsBackend(config, x.driver, x.control.sent, d);
          var view := Driver.Step(config, x.driver, d).view;
          AbstractStep(model, Controller.Work(view));
          model := model + [Controller.Work(view)];
        }
    }
  }

  /** Activation through the real driver, whatever it does in between. */
  lemma ActivationIsReal(config: Driver.Config, run: seq<Label>, id: nat, mode: uint8)
    requires After(config, run).control.issued < WRAP && Narrow(After(config, run).driver.view.log)
    requires ControllerTheorems.Finished(After(config, run).control, id, Controller.Activate(mode), Controller.Succeeded)
    ensures exists w1: nat, r1: nat, w2: nat, r2: nat ::
              ControllerTheorems.ActivationSeen(After(config, run).control, id, mode, w1, r1, w2, r2)
  {
    var model := RunIsContractRun(config, run);
    ControllerTheorems.ActivationIsReal(model, id, mode);
  }
}

module SimCell {
  import opened Backend
  import opened Messages
  import opened ProcessImage
  import opened ProcessImageProofs
  import opened Rounding
  import opened Wrappers
  import Controller
  import ControllerTheorems
  import GripperUnits
  import SimBackend
  import SimRuns

  datatype System = System(control: Controller.System, sim: SimRuns.System)

  datatype Label = Control(move: Controller.Label) | Simulate(work: SimRuns.Label)

  const BEGIN := System(Controller.INITIAL.(view := SimRuns.BEGIN.view), SimRuns.BEGIN)

  predicate Delivers(sent: set<Command>, l: SimRuns.Label) {
    l.Receive? ==> l.command in sent
  }

  ghost function Step(config: SimBackend.Config, x: System, l: Label): System {
    match l
    case Control(c) => if c.Work? then x else x.(control := Controller.Step(x.control, c))
    case Simulate(b) =>
      if Delivers(x.control.sent, b) then
        var sim := SimRuns.Step(config, x.sim, b);
        System(x.control.(view := sim.view), sim)
      else x
  }

  ghost function After(config: SimBackend.Config, run: seq<Label>): System {
    if run == [] then BEGIN else Step(config, After(config, run[..|run| - 1]), run[|run| - 1])
  }

  lemma SentGrows(s: Controller.System, l: Controller.Label)
    ensures s.sent <= Controller.Step(s, l).sent
    ensures !l.Work? ==> Controller.Step(s, l).view == s.view
  {
  }

  lemma InvariantWidens(x: SimRuns.System, sent: set<Command>, sent': set<Command>)
    requires SimRuns.Invariant(x, sent) && sent <= sent'
    ensures SimRuns.Invariant(x, sent')
  {
  }

  lemma AbstractStep(run: seq<Controller.Label>, l: Controller.Label)
    ensures Controller.After(run + [l]) == Controller.Step(Controller.After(run), l)
  {
    assert (run + [l])[..|run|] == run;
  }

  lemma FirstStep() returns (model: seq<Controller.Label>)
    ensures Controller.After(model) == BEGIN.control
  {
    model := [Controller.Work(SimRuns.BEGIN.view)];
    assert BackendStep(START, {}, SimRuns.BEGIN.view);
    AbstractStep([], model[0]);
  }

  /** Every run with the simulator is a run against the contract. */
  lemma {:induction false} RunIsContractRun(config: SimBackend.Config, run: seq<Label>) returns (model: seq<Controller.Label>)
    ensures Controller.After(model) == After(config, run).control
    ensures After(config, run).control.view == After(config, run).sim.view
    ensures SimRuns.Invariant(After(config, run).sim, After(config, run).control.sent)
  {
    if run == [] {
      model := FirstStep();
      SimRuns.BeginInvariant({});
    } else {
      model := RunIsContractRun(config, run[..|run| - 1]);
      var x := After(config, run[..|run| - 1]);
      match run[|run| - 1]
      case Control(c) =>
        if !c.Work? {
          SentGrows(x.control, c);
          InvariantWidens(x.sim, x.control.sent, Controller.Step(x.control, c).sent);
          AbstractStep(model, c);
          model := model + [c];
        }
      case Simulate(b) =>
        if Delivers(x.control.sent, b) {
          SimRuns.SimIsBackend(config, x.sim, x.control.sent, b);
          var view := SimRuns.Step(config, x.sim, b).view;
          AbstractStep(model, Controller.Work(view));
          model := model + [Controller.Work(view)];
        }
    }
  }

  /** The operation GripperCommand runs for a goal in metres and newtons. */
  function GripperCommand(units: GripperUnits.Config, position: real, effort: real): Controller.Operation
    requires GripperUnits.Allowed(units)
  {
    Controller.Motion(Controller.GripperGoal(
      GripperUnits.PositionToRaw(units, position), units.speed, GripperUnits.EffortToRaw(units, effort)))
  }

  /** The sixteen bytes GripperCommand has the driver write: active, pinch and go-to, and the same request for the three fingers. */
  lemma GripperCommandBytes(units: GripperUnits.Config, position: real, effort: real)
    requires GripperUnits.Allowed(units)
    ensures var p, v, f := GripperUnits.PositionToRaw(units, position), units.speed, GripperUnits.EffortToRaw(units, effort);
      PackCommand(Controller.FirstRequest(GripperCommand(units, position, effort)))
        == Success([0x0B, 0, 0, p, v, f, p, v, f, p, v, f, 0, v, f, 0])
  {
    PackedBytes(Controller.FirstRequest(GripperCommand(units, position, effort)));
  }

  /** A motion that succeeds on the simulator and was reported as reached has finger A where it was sent. */
  lemma ReachedGoal(config: SimBackend.Config, run: seq<Label>, id: nat, goal: Controller.Goal)
    requires After(config, run).control.issued < WRAP && goal.mode != MODE_SCISSOR
    requires ControllerTheorems.Finished(After(config, run).control, id, Controller.Motion(goal), Controller.Succeeded)
    requires After(config, run).control.threads[id].seen.device.motion == MOTION_REACHED
    ensures After(config, run).control.threads[id].seen.device.a.actual == goal.a.position
  {
    var model := RunIsContractRun(config, run);
    ControllerTheorems.OperationIsReal(model, id, Controller.Motion(goal));
    var s := Controller.After(model);
    var w: nat, r: nat :| ControllerTheorems.OperationSeen(s, id, Controller.Motion(goal), w, r);
    assert s.view.log[r].Sampled?;
    assert SimRuns.ShowsArrival(s.view.log[r].device);
  }

  /**
   * A GripperCommand that succeeds on the simulator and reports its goal as reached reports a position
   * within half a raw step of the request, whatever else was going on.
   */
  lemma GripperCommandIsAccurate(config: SimBackend.Config, units: GripperUnits.Config, run: seq<Label>, id: nat,
                                 position: real, effort: real)
    requires GripperUnits.Allowed(units) && GripperUnits.AcceptsGoal(units, position, effort)
    requires After(config, run).control.issued < WRAP
    requires ControllerTheorems.Finished(After(config, run).control, id, GripperCommand(units, position, effort), Controller.Succeeded)
    requires After(config, run).control.threads[id].seen.device.motion == MOTION_REACHED
    ensures var reported := GripperUnits.RawToPosition(units, After(config, run).control.threads[id].seen.device.a.actual);
      Abs(reported - position) <= Over(units.maxOpening - units.closed, 2.0 * units.closedRaw as real)
  {
    ReachedGoal(config, run, id, GripperCommand(units, position, effort).goal);
    GripperUnits.PositionError(units, position);
  }
}
