/**
 * The co-simulation slave as the runner drives it: instantiate, set up the
 * experiment, enter initialisation, write parameters, leave initialisation,
 * step, read values, terminate and free.  What the simulated model computes
 * is not part of this model; an `Oracle` stands for it, giving the value of
 * every variable after any number of steps.
 */
module CoSimulation {
  import opened Resolver

  /** The values the FMU reports for a value reference after `n` completed steps. */
  datatype Oracle = Oracle(
    realAt: (nat, Handle) -> real,
    integerAt: (nat, Handle) -> int,
    booleanAt: (nat, Handle) -> bool)

  /** One parameter write, through the setter of the variable's declared type. */
  datatype Write =
    | SetReal(handle: Handle, x: real)
    | SetInteger(handle: Handle, i: int)
    | SetBoolean(handle: Handle, b: bool)

  /** One `doStep` call: the communication point and the step size. */
  datatype Step = Step(point: real, size: real)

  /** Where the slave is in its life cycle. */
  datatype Phase = Created | Instantiated | Initializing | Stepping | Terminated | Freed

  class Slave {
    const oracle: Oracle
    var phase: Phase
    var startTime: real
    var writes: seq<Write>
    var steps: seq<Step>

    constructor (oracle: Oracle)
      ensures this.oracle == oracle
      ensures phase == Created && writes == [] && steps == []
    {
      this.oracle := oracle;
      phase := Created;
      startTime := 0.0;
      writes := [];
      steps := [];
    }

    method Instantiate()
      requires phase == Created
      modifies this`phase
      ensures phase == Instantiated
    {
      phase := Instantiated;
    }

    method SetupExperiment(start: real)
      requires phase == Instantiated
      modifies this`startTime
      ensures startTime == start
    {
      startTime := start;
    }

    method EnterInitializationMode()
      requires phase == Instantiated
      modifies this`phase
      ensures phase == Initializing
    {
      phase := Initializing;
    }

    method SetReal(handle: Handle, x: real)
      requires phase == Initializing
      modifies this`writes
      ensures writes == old(writes) + [Write.SetReal(handle, x)]
    {
      writes := writes + [Write.SetReal(handle, x)];
    }

    method SetInteger(handle: Handle, i: int)
      requires phase == Initializing
      modifies this`writes
      ensures writes == old(writes) + [Write.SetInteger(handle, i)]
    {
      writes := writes + [Write.SetInteger(handle, i)];
    }

    method SetBoolean(handle: Handle, b: bool)
      requires phase == Initializing
      modifies this`writes
      ensures writes == old(writes) + [Write.SetBoolean(handle, b)]
    {
      writes := writes + [Write.SetBoolean(handle, b)];
    }

    method ExitInitializationMode()
      requires phase == Initializing
      modifies this`phase
      ensures phase == Stepping
    {
      phase := Stepping;
    }

    /** Advances the model by one step; later reads see one more completed step. */
    method DoStep(point: real, size: real)
      requires phase == Stepping
      modifies this`steps
      ensures steps == old(steps) + [Step(point, size)]
    {
      steps := steps + [Step(point, size)];
    }

    /** The Real values of `handles` after the steps taken so far, in the order asked for. */
    method GetReal(handles: seq<Handle>) returns (vals: seq<real>)
      requires phase == Stepping
      ensures |vals| == |handles|
      ensures forall i :: 0 <= i < |handles| ==> vals[i] == oracle.realAt(|steps|, handles[i])
    {
      var n := |steps|;
      vals := seq(|handles|, i requires 0 <= i < |handles| => oracle.realAt(n, handles[i]));
    }

    /** The Integer value of `handle` after the steps taken so far. */
    method GetInteger(handle: Handle) returns (v: int)
      requires phase == Stepping
      ensures v == oracle.integerAt(|steps|, handle)
    {
      v := oracle.integerAt(|steps|, handle);
    }

    /** The Boolean value of `handle` after the steps taken so far. */
    method GetBoolean(handle: Handle) returns (v: bool)
      requires phase == Stepping
      ensures v == oracle.booleanAt(|steps|, handle)
    {
      v := oracle.booleanAt(|steps|, handle);
    }

    method Terminate()
      requires phase == Stepping
      modifies this`phase
      ensures phase == Terminated
    {
      phase := Terminated;
    }

    method FreeInstance()
      requires phase == Terminated
      modifies this`phase
      ensures phase == Freed
    {
      phase := Freed;
    }
  }
}
