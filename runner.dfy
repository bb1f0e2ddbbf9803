/**
 * `run_simulation_realtime`: resolve the output and stop variables, write
 * the flattened parameters through the setter of each variable's declared
 * type, then step the slave one second at a time, emitting one row per
 * step, until the stop signal is seen or the time limit is passed.
 */
module Runner {
  import opened Wrappers
  import opened ConfigTree
  import opened OrderedDict
  import opened Flatten
  import opened Resolver
  import opened CoSimulation
  import Decimal

  /** The output variables the runner records, in column order. */
  const OutputNames: seq<string> := [
    "EAF_Power_arc",
    "EAF_State_T_liq",
    "EAF_P_loss_elec",
    "EAF_P_loss_water",
    "EAF_P_loss_gas",
    "EAF_P_loss_total",
    "EAF_State_m_liq"
  ]

  const StepSize: real := 1.0
  const MaxTime: real := 10000.0

  /** A Real stop signal counts as raised from this value on. */
  const StopThreshold: real := 0.99

  /** How many steps pass the loop guard: the pre-step times 0, s, 2s, ... that do not exceed the limit. */
  const MaxSteps: nat := (MaxTime / StepSize).Floor + 1

  // ----- Output columns -----

  /** The output names that resolve, in their original order. */
  function Found(vars: seq<Variable>, names: seq<string>): (r: seq<string>)
    ensures |r| <= |names|
    ensures forall x :: x in r ==> GetVr(vars, x).Some?
  {
    if names == [] then []
    else
      var last := names[|names| - 1];
      assert names == names[..|names| - 1] + [last];
      Found(vars, names[..|names| - 1]) + (if GetVr(vars, last).Some? then [last] else [])
  }

  /** The names found are exactly those that resolve. */
  lemma {:induction false} FoundExactly(vars: seq<Variable>, names: seq<string>)
    ensures forall x :: x in Found(vars, names) <==> x in names && GetVr(vars, x).Some?
  {
    if names != [] {
      var front := names[..|names| - 1];
      assert names == front + [names[|names| - 1]];
      FoundExactly(vars, front);
    }
  }

  /**
   * The found names are the names that resolve, as an in-order subsequence:
   * the search distributes over concatenation ...
   */
  lemma {:induction false} FoundAppend(vars: seq<Variable>, a: seq<string>, b: seq<string>)
    ensures Found(vars, a + b) == Found(vars, a) + Found(vars, b)
    decreases |b|
  {
    if b == [] {
      assert a + b == a;
    } else {
      var front, last := b[..|b| - 1], b[|b| - 1];
      var tail := if GetVr(vars, last).Some? then [last] else [];
      assert (a + b)[..|a + b| - 1] == a + front;
      assert (a + b)[|a + b| - 1] == last;
      assert Found(vars, a + b) == Found(vars, a + front) + tail;
      FoundAppend(vars, a, front);
      assert Found(vars, b) == Found(vars, front) + tail;
    }
  }

  /** ... and on one name it keeps the name exactly when it resolves. */
  lemma FoundSingle(vars: seq<Variable>, name: string)
    ensures Found(vars, [name]) == if GetVr(vars, name).Some? then [name] else []
  {
    assert [name][..0] == [];
  }

  /** The value references of names that all resolve. */
  function Handles(vars: seq<Variable>, found: seq<string>): (r: seq<Handle>)
    requires forall x :: x in found ==> GetVr(vars, x).Some?
    ensures |r| == |found|
  {
    seq(|found|, i requires 0 <= i < |found| => GetVr(vars, found[i]).value.handle)
  }

  lemma HandlesSnoc(vars: seq<Variable>, found: seq<string>, name: string)
    requires forall x :: x in found ==> GetVr(vars, x).Some?
    requires GetVr(vars, name).Some?
    ensures Handles(vars, found + [name]) == Handles(vars, found) + [GetVr(vars, name).value.handle]
  {
    var h := Handles(vars, found + [name]);
    assert forall i :: 0 <= i < |found| ==> (found + [name])[i] == found[i];
  }

  /**
   * The output-resolution loop: `found` lists the names that resolve, in
   * order, and `vrs[i]` is the value reference of `found[i]`.
   */
  method ResolveOutputs(vars: seq<Variable>, names: seq<string>) returns (vrs: seq<Handle>, found: seq<string>)
    ensures found == Found(vars, names)
    ensures vrs == Handles(vars, found)
  {
    vrs, found := [], [];
    var k := 0;
    while k < |names|
      invariant k <= |names|
      invariant found == Found(vars, names[..k])
      invariant vrs == Handles(vars, found)
    {
      assert names[..k + 1][..k] == names[..k];
      var name := names[k];
      var r := GetVr(vars, name);
      assert Found(vars, names[..k + 1]) == found + (if r.Some? then [name] else []);
      if r.Some? {
        HandlesSnoc(vars, found, name);
        vrs := vrs + [r.value.handle];
        found := found + [name];
      }
      k := k + 1;
    }
    assert names[..k] == names;
  }

  // ----- Typed parameter writes -----

  /** A string `int()` and `float()` accept in this model: unsigned decimal digits. */
  predicate IsDecimal(s: string) {
    |s| > 0 && forall i :: 0 <= i < |s| ==> Decimal.IsDigit(s[i])
  }

  /** `float(value)`; `None` when Python raises. */
  function ToFloat(v: Value): (r: Option<real>)
    ensures v.JInt? ==> r == Some(v.i as real)
    ensures v.JReal? ==> r == Some(v.r)
    ensures v.JBool? ==> r == Some(if v.b then 1.0 else 0.0)
    ensures (v.JNull? || v.JArray? || v.JObject?) ==> r.None?
  {
    match v
    case JBool(b) => Some(if b then 1.0 else 0.0)
    case JInt(i) => Some(i as real)
    case JReal(x) => Some(x)
    case JString(s) => if IsDecimal(s) then Some(Decimal.Parse(s) as real) else None
    case _ => None
  }

  /** `int(x)` for a number: truncation toward zero. */
  function Truncate(x: real): (i: int)
    ensures x >= 0.0 ==> 0 <= i && i as real <= x < i as real + 1.0
    ensures x < 0.0 ==> i <= 0 && i as real - 1.0 < x <= i as real
  {
    if x >= 0.0 then x.Floor else -((-x).Floor)
  }

  /** `int(value)`; `None` when Python raises. */
  function ToInt(v: Value): (r: Option<int>)
    ensures v.JInt? ==> r == Some(v.i)
    ensures v.JReal? ==> r == Some(Truncate(v.r))
    ensures v.JBool? ==> r == Some(if v.b then 1 else 0)
    ensures (v.JNull? || v.JArray? || v.JObject?) ==> r.None?
  {
    match v
    case JBool(b) => Some(if b then 1 else 0)
    case JInt(i) => Some(i)
    case JReal(x) => Some(Truncate(x))
    case JString(s) => if IsDecimal(s) then Some(Decimal.Parse(s)) else None
    case _ => None
  }

  /** `bool(value)`: Python truthiness. */
  function Truthy(v: Value): bool {
    match v
    case JNull => false
    case JBool(b) => b
    case JInt(i) => i != 0
    case JReal(x) => x != 0.0
    case JString(s) => s != []
    case JArray(items) => items != []
    case JObject(fields) => fields != map[]
  }

  /** A number is true exactly when `float()` of it is not zero, and `int()` truncates what `float()` keeps. */
  lemma NumberConversions(v: Value)
    requires v.JBool? || v.JInt? || v.JReal?
    ensures ToFloat(v).Some? && ToInt(v).Some?
    ensures Truthy(v) <==> ToFloat(v).value != 0.0
    ensures var x, i := ToFloat(v).value, ToInt(v).value;
      if x >= 0.0 then i as real <= x < i as real + 1.0 else i as real - 1.0 < x <= i as real
  {
  }

  /** The declared type a setter writes. */
  function Setter(w: Write): VarType {
    match w
    case SetReal(_, _) => Real
    case SetInteger(_, _) => Integer
    case SetBoolean(_, _) => Boolean
  }

  /**
   * The write one dict entry causes: none when the name does not resolve or
   * its type is neither Real, Integer nor Boolean; otherwise the setter of
   * that type with the converted value, or a failure (named by the entry)
   * when the conversion raises.
   */
  function WriteFor(vars: seq<Variable>, p: Param): (r: Result<Option<Write>, string>)
    ensures r.Failure? ==> r.error == p.name
    ensures r.Success? && r.value.Some? ==>
      GetVr(vars, p.name) == Some(Resolved(r.value.value.handle, Setter(r.value.value)))
    ensures GetVr(vars, p.name).None? ==> r == Success(None)
    ensures GetVr(vars, p.name).Some? && GetVr(vars, p.name).value.vtype in {String, Enumeration} ==> r == Success(None)
  {
    match GetVr(vars, p.name)
    case None => Success(None)
    case Some(Resolved(h, t)) =>
      match t
      case Real =>
        (match ToFloat(p.value)
         case Some(x) => Success(Some(SetReal(h, x)))
         case None => Failure(p.name))
      case Integer =>
        (match ToInt(p.value)
         case Some(i) => Success(Some(SetInteger(h, i)))
         case None => Failure(p.name))
      case Boolean => Success(Some(SetBoolean(h, Truthy(p.value))))
      case _ => Success(None)
  }

  /**
   * What an entry's write carries and when it raises: the value is `float()`,
   * `int()` or `bool()` of the entry's value by the setter's type; an entry
   * resolving to a Real, Integer or Boolean variable is written unless its
   * conversion raises; and only `float()` of a Real entry or `int()` of an
   * Integer entry can raise.
   */
  lemma WriteForConverts(vars: seq<Variable>, p: Param)
    ensures var r := WriteFor(vars, p);
      && (r.Failure? ==>
        || (GetVr(vars, p.name).Some? && GetVr(vars, p.name).value.vtype == Real && ToFloat(p.value).None?)
        || (GetVr(vars, p.name).Some? && GetVr(vars, p.name).value.vtype == Integer && ToInt(p.value).None?))
      && (r.Success? && r.value.Some? && r.value.value.SetReal? ==> ToFloat(p.value) == Some(r.value.value.x))
      && (r.Success? && r.value.Some? && r.value.value.SetInteger? ==> ToInt(p.value) == Some(r.value.value.i))
      && (r.Success? && r.value.Some? && r.value.value.SetBoolean? ==> r.value.value.b == Truthy(p.value))
      && (GetVr(vars, p.name).Some? && GetVr(vars, p.name).value.vtype in {Real, Integer, Boolean} ==>
        r.Failure? || r.value.Some?)
  {
  }

  /** The writes the parameter loop makes, and the entry whose conversion raised, if one did. */
  datatype Plan = Plan(writes: seq<Write>, fault: Option<string>)

  function WritePlan(vars: seq<Variable>, ps: seq<Param>): (r: Plan)
    ensures |r.writes| <= |ps|
  {
    if ps == [] then Plan([], None)
    else
      var prev := WritePlan(vars, ps[..|ps| - 1]);
      if prev.fault.Some? then prev
      else match WriteFor(vars, ps[|ps| - 1])
        case Failure(name) => Plan(prev.writes, Some(name))
        case Success(None) => prev
        case Success(Some(w)) => Plan(prev.writes + [w], None)
  }

  /** Once an entry's conversion has raised, later entries change nothing. */
  lemma {:induction false} PlanFaultPersists(vars: seq<Variable>, ps: seq<Param>, n: nat)
    requires n <= |ps|
    requires WritePlan(vars, ps[..n]).fault.Some?
    ensures WritePlan(vars, ps) == WritePlan(vars, ps[..n])
    decreases |ps| - n
  {
    if n < |ps| {
      assert ps[..n + 1][..n] == ps[..n];
      PlanFaultPersists(vars, ps, n + 1);
    } else {
      assert ps[..n] == ps;
    }
  }

  /** The loop completes exactly when every entry converts. */
  lemma {:induction false} PlanCompletes(vars: seq<Variable>, ps: seq<Param>)
    ensures WritePlan(vars, ps).fault.None? <==> forall p :: p in ps ==> WriteFor(vars, p).Success?
  {
    if ps != [] {
      var front := ps[..|ps| - 1];
      assert ps == front + [ps[|ps| - 1]];
      PlanCompletes(vars, front);
    }
  }

  /** A completed loop makes exactly the writes its entries call for, each through the right setter. */
  lemma {:induction false} PlanWrites(vars: seq<Variable>, ps: seq<Param>)
    requires WritePlan(vars, ps).fault.None?
    ensures forall w :: w in WritePlan(vars, ps).writes <==> exists p :: p in ps && WriteFor(vars, p) == Success(Some(w))
  {
    if ps != [] {
      var front := ps[..|ps| - 1];
      var last := ps[|ps| - 1];
      assert ps == front + [last];
      PlanWrites(vars, front);
      var extra := match WriteFor(vars, last) case Success(Some(w)) => [w] case _ => [];
      assert WritePlan(vars, ps).writes == WritePlan(vars, front).writes + extra;
      forall w | exists p :: p in ps && WriteFor(vars, p) == Success(Some(w))
        ensures w in WritePlan(vars, ps).writes
      {
        var p :| p in ps && WriteFor(vars, p) == Success(Some(w));
        if p != last {
          assert p in front;
        }
      }
    }
  }

  /** A failed loop stops at the first entry whose conversion raises, after that entry's predecessors' writes. */
  lemma {:induction false} PlanFault(vars: seq<Variable>, ps: seq<Param>)
    requires WritePlan(vars, ps).fault.Some?
    ensures exists i :: (0 <= i < |ps|
      && WriteFor(vars, ps[i]).Failure?
      && WritePlan(vars, ps).fault == Some(ps[i].name)
      && WritePlan(vars, ps).writes == WritePlan(vars, ps[..i]).writes
      && WritePlan(vars, ps[..i]).fault.None?)
  {
    var front := ps[..|ps| - 1];
    var last := ps[|ps| - 1];
    if WritePlan(vars, front).fault.Some? {
      PlanFault(vars, front);
      var i :| 0 <= i < |front| && WriteFor(vars, front[i]).Failure?
        && WritePlan(vars, front).fault == Some(front[i].name)
        && WritePlan(vars, front).writes == WritePlan(vars, front[..i]).writes
        && WritePlan(vars, front[..i]).fault.None?;
      assert front[..i] == ps[..i];
      assert front[i] == ps[i];
    } else {
      assert ps[..|ps| - 1] == front;
    }
  }

  /**
   * The write loop goes through the dict in order: one more entry extends a
   * loop that has not raised by exactly that entry's write, or stops it with
   * that entry's fault.
   */
  lemma PlanStep(vars: seq<Variable>, ps: seq<Param>, k: nat)
    requires k < |ps| && WritePlan(vars, ps[..k]).fault.None?
    ensures WritePlan(vars, ps[..k + 1]) == match WriteFor(vars, ps[k])
      case Failure(name) => Plan(WritePlan(vars, ps[..k]).writes, Some(name))
      case Success(None) => WritePlan(vars, ps[..k])
      case Success(Some(w)) => Plan(WritePlan(vars, ps[..k]).writes + [w], None)
  {
    assert ps[..k + 1][..k] == ps[..k];
  }

  /**
   * One pass of the parameter loop: resolve the entry, then call the setter
   * of its type with the converted value; `raised` when the conversion raises.
   */
  method WriteEntry(slave: Slave, vars: seq<Variable>, p: Param) returns (raised: bool)
    requires slave.phase == Initializing
    modifies slave
    ensures raised <==> WriteFor(vars, p).Failure?
    ensures slave.writes == old(slave.writes) + match WriteFor(vars, p) case Success(Some(w)) => [w] case _ => []
    ensures slave.phase == Initializing && slave.steps == old(slave.steps) && slave.startTime == old(slave.startTime)
  {
    raised := false;
    match GetVr(vars, p.name) {
      case None =>
      case Some(Resolved(h, t)) =>
        if t == Real {
          var x := ToFloat(p.value);
          if x.None? {
            return true;
          }
          slave.SetReal(h, x.value);
        } else if t == Integer {
          var i := ToInt(p.value);
          if i.None? {
            return true;
          }
          slave.SetInteger(h, i.value);
        } else if t == Boolean {
          slave.SetBoolean(h, Truthy(p.value));
        }
    }
  }

  /** The parameter loop: each entry in dict order, stopping at the first conversion that raises. */
  method WriteParameters(slave: Slave, vars: seq<Variable>, ps: seq<Param>) returns (fault: Option<string>)
    requires slave.phase == Initializing
    modifies slave
    ensures fault == WritePlan(vars, ps).fault
    ensures slave.writes == old(slave.writes) + WritePlan(vars, ps).writes
    ensures slave.phase == Initializing && slave.steps == old(slave.steps) && slave.startTime == old(slave.startTime)
  {
    var k := 0;
    while k < |ps|
      invariant k <= |ps|
      invariant WritePlan(vars, ps[..k]).fault.None?
      invariant slave.writes == old(slave.writes) + WritePlan(vars, ps[..k]).writes
      invariant slave.phase == Initializing && slave.steps == old(slave.steps) && slave.startTime == old(slave.startTime)
      decreases |ps| - k
    {
      PlanStep(vars, ps, k);
      var raised := WriteEntry(slave, vars, ps[k]);
      if raised {
        PlanFaultPersists(vars, ps, k + 1);
        return Some(ps[k].name);
      }
      k := k + 1;
    }
    assert ps[..k] == ps;
    fault := None;
  }

  // ----- Stepping -----

  /**
   * Whether the stop variable reads as raised after `n` steps: a Boolean as
   * is, a Real from the threshold on, an Integer only at 1; a stop variable
   * that is missing or of another type is never raised.
   */
  function StopSeen(oracle: Oracle, stop: Option<Resolved>, n: nat): (seen: bool)
    ensures (stop.None? || stop.value.vtype in {String, Enumeration}) ==> !seen
  {
    match stop
    case None => false
    case Some(Resolved(h, t)) =>
      match t
      case Boolean => oracle.booleanAt(n, h)
      case Real => oracle.realAt(n, h) >= StopThreshold
      case Integer => oracle.integerAt(n, h) == 1
      case _ => false
  }

  /** Reads the stop variable through the getter of its declared type. */
  method ReadStop(slave: Slave, stop: Option<Resolved>) returns (stopped: bool)
    requires slave.phase == Stepping
    ensures stopped == StopSeen(slave.oracle, stop, |slave.steps|)
  {
    stopped := false;
    if stop.Some? {
      var h := stop.value.handle;
      match stop.value.vtype
      case Boolean =>
        stopped := slave.GetBoolean(h);
      case Real =>
        var vals := slave.GetReal([h]);
        stopped := vals[0] >= StopThreshold;
      case Integer =>
        var v := slave.GetInteger(h);
        stopped := v == 1;
      case _ =>
    }
  }

  /** A CSV data row: the time after the step, then the output values. */
  datatype Row = Row(time: real, values: seq<real>)

  /** The output values after `n` steps. */
  function Outputs(oracle: Oracle, n: nat, vrs: seq<Handle>): (r: seq<real>)
    ensures |r| == |vrs|
  {
    seq(|vrs|, i requires 0 <= i < |vrs| => oracle.realAt(n, vrs[i]))
  }

  /**
   * The rows of a run: row i is written after step i + 1, at time
   * (i + 1) * step, with the outputs after that step; the run ends at the
   * first step whose stop signal is raised, with that row written, or
   * after `MaxSteps` steps.
   */
  predicate Trace(oracle: Oracle, vrs: seq<Handle>, stop: Option<Resolved>, rows: seq<Row>, stopped: bool) {
    && 1 <= |rows| <= MaxSteps
    && (forall i :: 0 <= i < |rows| ==> rows[i] == Row((i + 1) as real * StepSize, Outputs(oracle, i + 1, vrs)))
    && (forall n :: 1 <= n < |rows| ==> !StopSeen(oracle, stop, n))
    && stopped == StopSeen(oracle, stop, |rows|)
    && (!stopped ==> |rows| == MaxSteps)
  }

  /** The `doStep` calls of a run of `n` steps: step i at communication point i * step. */
  function StepLog(n: nat): seq<Step> {
    seq(n, i requires 0 <= i < n => Step(i as real * StepSize, StepSize))
  }

  /** The step loop. */
  method StepLoop(slave: Slave, vrs: seq<Handle>, stop: Option<Resolved>) returns (rows: seq<Row>, stopped: bool)
    requires slave.phase == Stepping && slave.steps == []
    modifies slave
    ensures Trace(slave.oracle, vrs, stop, rows, stopped)
    ensures slave.steps == StepLog(|rows|)
    ensures slave.phase == Stepping && slave.writes == old(slave.writes) && slave.startTime == old(slave.startTime)
  {
    var time := 0.0;
    rows, stopped := [], false;
    while time <= MaxTime
      invariant |rows| <= MaxSteps
      invariant time == |rows| as real * StepSize
      invariant forall i :: 0 <= i < |rows| ==> rows[i] == Row((i + 1) as real * StepSize, Outputs(slave.oracle, i + 1, vrs))
      invariant forall n :: 1 <= n <= |rows| ==> !StopSeen(slave.oracle, stop, n)
      invariant slave.steps == StepLog(|rows|)
      invariant slave.phase == Stepping && slave.writes == old(slave.writes) && slave.startTime == old(slave.startTime)
      decreases MaxSteps - |rows|
    {
      slave.DoStep(time, StepSize);
      time := time + StepSize;
      var isStopped := ReadStop(slave, stop);
      var vals := slave.GetReal(vrs);
      rows := rows + [Row(time, vals)];
      if isStopped {
        stopped := true;
        break;
      }
    }
  }

  /** With a one-second step and a limit of 10000, the loop guard passes 10001 times. */
  lemma MaxStepsValue()
    ensures MaxSteps == 10001
    ensures (MaxSteps - 1) as real * StepSize <= MaxTime < MaxSteps as real * StepSize
  {
  }

  /** The first row is at one step, and each later row one step after the row before it. */
  lemma RowTimes(oracle: Oracle, vrs: seq<Handle>, stop: Option<Resolved>, rows: seq<Row>, stopped: bool)
    requires Trace(oracle, vrs, stop, rows, stopped)
    ensures rows[0].time == StepSize
    ensures forall i :: 0 < i < |rows| ==> rows[i].time == rows[i - 1].time + StepSize
  {
    forall i | 0 < i < |rows| ensures rows[i].time == rows[i - 1].time + StepSize {
      assert rows[i].time == (i + 1) as real * StepSize;
      assert rows[i - 1].time == i as real * StepSize;
    }
  }

  /**
   * The steps and the rows interleave: the first step starts at 0, every
   * later step starts at the time of the row before it, and the step log
   * ends with the step whose row is the last.
   */
  lemma StepPoints(oracle: Oracle, vrs: seq<Handle>, stop: Option<Resolved>, rows: seq<Row>, stopped: bool)
    requires Trace(oracle, vrs, stop, rows, stopped)
    ensures |StepLog(|rows|)| == |rows|
    ensures StepLog(|rows|)[0].point == 0.0
    ensures forall i :: 0 < i < |rows| ==> StepLog(|rows|)[i].point == rows[i - 1].time
    ensures StepLog(|rows|)[|rows| - 1].point + StepSize == rows[|rows| - 1].time
  {
  }

  /** The rows and the stop flag are determined by the oracle, the columns and the stop variable. */
  lemma TraceDetermined(oracle: Oracle, vrs: seq<Handle>, stop: Option<Resolved>,
                        rows1: seq<Row>, stopped1: bool, rows2: seq<Row>, stopped2: bool)
    requires Trace(oracle, vrs, stop, rows1, stopped1)
    requires Trace(oracle, vrs, stop, rows2, stopped2)
    ensures rows1 == rows2 && stopped1 == stopped2
  {
    assert |rows1| == |rows2| by {
      // Each run's last step is a stop or the limit, and the other run passed it without stopping.
      ghost var last1, last2 := StopSeen(oracle, stop, |rows1|), StopSeen(oracle, stop, |rows2|);
    }
    forall i | 0 <= i < |rows1| ensures rows1[i] == rows2[i] {
    }
  }

  /** A run that never sees the stop signal writes 10001 rows, the last at time 10001. */
  lemma TimedOut(oracle: Oracle, vrs: seq<Handle>, stop: Option<Resolved>, rows: seq<Row>)
    requires Trace(oracle, vrs, stop, rows, false)
    ensures |rows| == 10001
    ensures rows[|rows| - 1].time == 10001.0
    ensures forall n :: 1 <= n <= |rows| ==> !StopSeen(oracle, stop, n)
  {
    MaxStepsValue();
  }

  /** A run whose stop signal is first raised after step n writes exactly n rows, the last being that step's. */
  lemma StopsAtFirstSignal(oracle: Oracle, vrs: seq<Handle>, stop: Option<Resolved>,
                           rows: seq<Row>, stopped: bool, n: nat)
    requires 1 <= n <= MaxSteps
    requires StopSeen(oracle, stop, n)
    requires forall m :: 1 <= m < n ==> !StopSeen(oracle, stop, m)
    requires Trace(oracle, vrs, stop, rows, stopped)
    ensures stopped && |rows| == n
    ensures rows[n - 1] == Row(n as real * StepSize, Outputs(oracle, n, vrs))
  {
    ghost var last := StopSeen(oracle, stop, |rows|);
  }

  /** Without a usable stop variable the run always goes to the time limit. */
  lemma NoStopVariable(oracle: Oracle, vrs: seq<Handle>, stop: Option<Resolved>, rows: seq<Row>, stopped: bool)
    requires stop.None? || stop.value.vtype in {String, Enumeration}
    requires Trace(oracle, vrs, stop, rows, stopped)
    ensures !stopped && |rows| == MaxSteps
  {
  }

  // ----- The whole run -----

  /** How a run ends. */
  datatype Outcome =
    | NoControl                  // the control document is empty or unreadable: nothing is done
    | ConfigFault(fault: Fault)  // flattening raised; the exception reaches the caller
    | WriteFault(name: string)   // a parameter conversion raised; the run is abandoned
    | Completed(header: seq<string>, rows: seq<Row>, stopped: bool)

  /** Instantiate, set up at time 0, enter initialisation and write the parameters. */
  method Initialize(slave: Slave, vars: seq<Variable>, params: seq<Param>) returns (fault: Option<string>)
    requires slave.phase == Created && slave.writes == [] && slave.steps == []
    modifies slave
    ensures fault == WritePlan(vars, params).fault
    ensures slave.writes == WritePlan(vars, params).writes
    ensures slave.phase == Initializing && slave.steps == [] && slave.startTime == 0.0
  {
    slave.Instantiate();
    slave.SetupExperiment(0.0);
    slave.EnterInitializationMode();
    fault := WriteParameters(slave, vars, params);
  }

  /** Leave initialisation, run the step loop, then terminate and free the instance. */
  method Drive(slave: Slave, vrs: seq<Handle>, stop: Option<Resolved>) returns (rows: seq<Row>, stopped: bool)
    requires slave.phase == Initializing && slave.steps == []
    modifies slave
    ensures Trace(slave.oracle, vrs, stop, rows, stopped)
    ensures slave.steps == StepLog(|rows|)
    ensures slave.writes == old(slave.writes) && slave.startTime == old(slave.startTime) && slave.phase == Freed
  {
    slave.ExitInitializationMode();
    rows, stopped := StepLoop(slave, vrs, stop);
    slave.Terminate();
    slave.FreeInstance();
  }

  /**
   * Everything after flattening: resolve the columns and the stop variable,
   * write the parameters, step, and shut the instance down.
   */
  method Simulate(slave: Slave, params: seq<Param>, vars: seq<Variable>, stopName: string) returns (outcome: Outcome)
    requires slave.phase == Created && slave.writes == [] && slave.steps == []
    modifies slave
    ensures var plan := WritePlan(vars, params);
      && slave.writes == plan.writes && slave.startTime == 0.0
      && (plan.fault.Some? ==> outcome == WriteFault(plan.fault.value) && slave.steps == [] && slave.phase == Initializing)
      && (plan.fault.None? ==>
            && outcome.Completed?
            && outcome.header == ["Time"] + Found(vars, OutputNames)
            && Trace(slave.oracle, Handles(vars, Found(vars, OutputNames)), GetVr(vars, stopName),
                     outcome.rows, outcome.stopped)
            && slave.steps == StepLog(|outcome.rows|)
            && slave.phase == Freed)
  {
    var vrs, found := ResolveOutputs(vars, OutputNames);
    var stop := GetVr(vars, stopName);
    var fault := Initialize(slave, vars, params);
    if fault.Some? {
      return WriteFault(fault.value);
    }
    var header := ["Time"] + found;
    var rows, stopped := Drive(slave, vrs, stop);
    outcome := Completed(header, rows, stopped);
  }

  /** `run_simulation_realtime` on parsed documents and a model description, with `slave` as the instance it creates. */
  method Run(slave: Slave, control: Dict, config: Dict, vars: seq<Variable>, stopName: string) returns (outcome: Outcome)
    requires slave.phase == Created && slave.writes == [] && slave.steps == []
    modifies slave
    ensures control == map[] ==> outcome == NoControl && slave.phase == Created && slave.writes == [] && slave.steps == []
    ensures control != map[] && Flattened(control, config).Failure? ==>
      outcome == ConfigFault(Flattened(control, config).error) && slave.phase == Created && slave.writes == [] && slave.steps == []
    ensures control != map[] && Flattened(control, config).Success? ==>
      var plan := WritePlan(vars, Flattened(control, config).value);
      && slave.writes == plan.writes && slave.startTime == 0.0
      && (plan.fault.Some? ==> outcome == WriteFault(plan.fault.value) && slave.steps == [] && slave.phase == Initializing)
      && (plan.fault.None? ==>
            && outcome.Completed?
            && outcome.header == ["Time"] + Found(vars, OutputNames)
            && Trace(slave.oracle, Handles(vars, Found(vars, OutputNames)), GetVr(vars, stopName),
                     outcome.rows, outcome.stopped)
            && slave.steps == StepLog(|outcome.rows|)
            && slave.phase == Freed)
  {
    if control == map[] {
      return NoControl;
    }
    var params := MapParameters(control, config);
    if params.Failure? {
      return ConfigFault(params.error);
    }
    outcome := Simulate(slave, params.value, vars, stopName);
  }
}
