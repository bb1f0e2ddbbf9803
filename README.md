# EAF FMU runner: a verified model

This project is a Dafny model of the core of `python/run_eaf_fmu.py`. That
script drives a co-simulation FMU of an electric arc furnace (EAF). It has
three parts:

- `map_parameters` flattens the control document (four process stages) and
  the configuration document (fixed parameters and initial states) into one
  dict. The dict maps qualified FMU names such as `EAF.Control.Stage2.Z_set`
  or `EAF.Fixed.Tap_Lookup_V[1,3]` to values. Entries whose value is `None`
  are dropped.
- `get_vr` looks up a variable of the model description by name. The first
  exact match wins. Failing that, names are compared after `.` becomes `_`
  and spaces are removed.
- `run_simulation_realtime` resolves the output columns and the stop
  variable, writes every parameter through the setter of its declared type,
  and steps the slave one second at a time. It emits one row per step, until
  the stop signal is raised or the time limit is passed.

Modules, one file each:

- `Wrappers`: `Option` and `Result`.
- `Decimal`: how `{n}` renders a natural number.
- `ConfigTree`: parsed JSON values, and `d.get(key, {})` on sections.
- `OrderedDict`: a Python dict as its list of items in insertion order.
- `Flatten`: `map_parameters` as a specification function `Flattened`, and
  as methods that build `start_values` assignment by assignment.
- `FlattenFacts`: what the flattened dict holds, name by name, for documents
  on which `map_parameters` returns instead of raising.
- `Resolver`: `get_vr`.
- `CoSimulation`: the FMU instance as a `Slave` class. Its values come from
  an oracle, and it records the writes and steps made on it.
- `Runner`: `run_simulation_realtime`, covering output resolution, the
  typed write loop, the step loop and the whole run.

The loop bound follows the code. The guard `time <= max_time` is tested on
the time before each step, so without a stop signal the loop performs
`floor(max_time / step_size) + 1` = 10001 steps. The last row is at time
10001. A count of `floor(max_time / step_size)` would be one short of this.

## Model

| member | source | states |
|---|---|---|
| Decimal.ParseDigits | python/run_eaf_fmu.py:32-35 | parsing the decimal rendering of a stage or tap index gives the index back |
| Decimal.DigitsInjective | python/run_eaf_fmu.py:47 | different indices render differently |
| Decimal.Digits | python/run_eaf_fmu.py:32-35 | `{idx}` in an f-string: at least one character, all decimal digits, no leading zero, and a single digit exactly for n < 10; `Decimal.ParseDigits` inverts it |
| OrderedDict.Assign | python/run_eaf_fmu.py:32-33 | `d[k] = v` appends a new key at the end, or replaces the value of an existing key in place; keys stay unique |
| OrderedDict.Apply | python/run_eaf_fmu.py:23-74 | a run of assignments keeps the dict's keys unique |
| OrderedDict.ApplyAppend | python/run_eaf_fmu.py:23-74 | performing two runs of assignments one after the other is performing their concatenation |
| OrderedDict.ApplyWithoutOverwrite | python/run_eaf_fmu.py:23-74 | assignments to pairwise different keys on the empty dict give exactly those items, in order |
| OrderedDict.DropNulls | python/run_eaf_fmu.py:76 | the comprehension keeps exactly the items whose value is not None, and keys stay unique |
| OrderedDict.DropNullsAppend | python/run_eaf_fmu.py:76 | the filter distributes over concatenation, so the kept items stay in their insertion order, each once |
| OrderedDict.DropNullsSingle | python/run_eaf_fmu.py:76 | on one item the filter drops it when its value is None and keeps it otherwise |
| OrderedDict.FilteredItem | python/run_eaf_fmu.py:76 | after filtering, a key bound to `v` is present iff `v` is not None, and then with `v` |
| ConfigTree.Section | python/run_eaf_fmu.py:26-29 | `d.get(key, {})` used as a section: it succeeds exactly when the key is missing or holds a dict, then giving that dict or the empty dict; anything else (None included) raises on the next `.get`, naming the key |
| ConfigTree.Get | python/run_eaf_fmu.py:32-35 | `d.get(key)`: the value under the key, or None when it is missing; the parameter lemmas `FlattenFacts.StageParameter` and `FlattenFacts.ScalarParameter` state what it means for the result |
| Flatten.StageKey | python/run_eaf_fmu.py:32-35 | `f'EAF.Control.Stage{idx}.k_tap'` and its siblings; `FlattenFacts.StageKeyInjective` states that a key determines its stage and field |
| Flatten.StageSourceKey | python/run_eaf_fmu.py:32-35 | `f'k_tap_{idx}'`, `f'Z_set_{idx}'`, `f'mass_flow_O2_{idx}'` and `f'mass_flow_CO2_{idx}'`; `FlattenFacts.StageParameter` states which value each key reads |
| Flatten.TapKey | python/run_eaf_fmu.py:47 | `f'EAF.Fixed.Tap_Lookup_V[1,{i+1}]'`; `FlattenFacts.TapKeyInjective` states that different indices give different keys |
| Flatten.StageAssignments | python/run_eaf_fmu.py:32-35 | the four assignments of one stage pass, in source order; `Flatten.AssignStage` performs them |
| Flatten.StageAssignmentsUpTo | python/run_eaf_fmu.py:28-35 | the first n passes of the stage loop, or the fault of the first stage section that is not a dict; `Flatten.StageFaultPersists` and `Flatten.AssignControl` state its meaning |
| Flatten.TapAssignments | python/run_eaf_fmu.py:46-48 | element k of the tap table assigned to index k + 1, in order; `Flatten.AssignTaps` performs them and `FlattenFacts.TapParameter` states the result |
| Flatten.ElectricalAssignments | python/run_eaf_fmu.py:42-48 | `R_sys`, `X_sys`, then the tap loop; `Flatten.AssignElectrical` performs them |
| Flatten.GeometryAssignments | python/run_eaf_fmu.py:52-55 | `R_fur`, `R_ele`, then `A_furnace` only when the key is present; `Flatten.AssignGeometry` performs them and `FlattenFacts.FurnaceArea` states the result |
| Flatten.MaterialsAssignments | python/run_eaf_fmu.py:59 | `rho_solid`; `FlattenFacts.ScalarParameter` states the result |
| Flatten.EnvironmentAssignments | python/run_eaf_fmu.py:63-64 | `T_amb`, and `T_out_steel` read from `T_out_steel_target`; `FlattenFacts.ScalarParameter` states the result |
| Flatten.MassAssignments | python/run_eaf_fmu.py:69-70 | `m_solid_0`, and `m_liq` read from `m_liq_0`; `FlattenFacts.ScalarParameter` states the result |
| Flatten.TemperatureAssignments | python/run_eaf_fmu.py:73-74 | `T_solid` and `T_liq` read from `T_solid_0` and `T_liq_0`; `FlattenFacts.ScalarParameter` states the result |
| Flatten.ControlAssignments | python/run_eaf_fmu.py:26-35 | part A: the `control_stages` section, then the four stage passes, or the first fault; `Flatten.AssignControl` performs it |
| Flatten.FixedAssignments | python/run_eaf_fmu.py:38-64 | part B: electrical with taps, geometry, materials and environment, in source order, or the first fault; `Flatten.AssignFixed` performs it |
| Flatten.InitialAssignments | python/run_eaf_fmu.py:67-74 | part C: mass and temperature, or the first fault; `Flatten.AssignInitial` performs it |
| Flatten.Assignments | python/run_eaf_fmu.py:23-74 | every assignment to `start_values`, parts A, B and C in order, or the first fault; `FlattenFacts.AssignmentsUnique` and `FlattenFacts.FlattenedIsFiltered` state what the dict then holds |
| Flatten.Flattened | python/run_eaf_fmu.py:22-76 | the returned dict never has a key twice and never holds None |
| Flatten.StageFaultPersists | python/run_eaf_fmu.py:28-29 | once a stage section of the wrong shape raises, the stage loop raises that same exception |
| Flatten.TapValues | python/run_eaf_fmu.py:45-46 | `enumerate(elec.get('Tap_Lookup_V', []))` succeeds exactly when the key is missing (no element), or holds a list or a string; a list gives its own elements in order, a string its characters one by one, in order; anything else raises, naming the key |
| Flatten.AssignStage | python/run_eaf_fmu.py:29-35 | one pass of the stage loop performs the stage's four assignments |
| Flatten.AssignTaps | python/run_eaf_fmu.py:45-48 | the tap loop assigns element k to `Tap_Lookup_V[1,{k+1}]`, in order |
| Flatten.AssignElectrical | python/run_eaf_fmu.py:41-48 | `R_sys`, `X_sys`, then the tap loop |
| Flatten.AssignGeometry | python/run_eaf_fmu.py:51-55 | `R_fur`, `R_ele`, and `A_furnace` only when the geometry section has that key |
| Flatten.AssignControl | python/run_eaf_fmu.py:26-35 | the stage loop performs part A's assignments on the empty dict, or raises the exception of the first malformed section |
| Flatten.AssignFixed | python/run_eaf_fmu.py:38-64 | part B: electrical, geometry, materials and environment assignments, or the exception of the first malformed section |
| Flatten.AssignInitial | python/run_eaf_fmu.py:67-74 | part C: mass and temperature assignments, or the exception of the first malformed section |
| Flatten.MapParameters | python/run_eaf_fmu.py:22-76 | the dict built step by step equals the specification `Flattened`, exceptions included |
| FlattenFacts.StageKeyInjective | python/run_eaf_fmu.py:32-35 | stage keys of different stages or fields differ |
| FlattenFacts.TapKeyInjective | python/run_eaf_fmu.py:47 | tap keys of different indices differ |
| FlattenFacts.AssignmentsUnique | python/run_eaf_fmu.py:22-74 | no key is assigned twice, so no assignment overwrites another |
| FlattenFacts.FlattenedIsFiltered | python/run_eaf_fmu.py:22-76 | the result is exactly the assignments made, in order, less those whose value is None |
| FlattenFacts.StageParameter | python/run_eaf_fmu.py:28-35 | `EAF.Control.Stage{i}.{k_tap,Z_set,O2,C}` is present iff the i-th stage's `k_tap_i`, `Z_set_i`, `mass_flow_O2_i` or `mass_flow_CO2_i` is present and not None, and then holds that value |
| FlattenFacts.MissingStage | python/run_eaf_fmu.py:29 | a missing stage section contributes no key |
| FlattenFacts.ScalarParameter | python/run_eaf_fmu.py:42-74 | each fixed or initial-state scalar is present iff its source field is present and not None, and then holds that value |
| FlattenFacts.FurnaceArea | python/run_eaf_fmu.py:54-55 | `EAF.Fixed.A_furnace` is present iff geometry has the key `A_furnace` with a value other than None |
| FlattenFacts.TapParameter | python/run_eaf_fmu.py:45-48 | tap element k is present under `Tap_Lookup_V[1,{k+1}]` iff it is not None, and then holds that element |
| FlattenFacts.NamesKnown | python/run_eaf_fmu.py:22-76 | every key is a stage key, one of the twelve scalar names, or a tap key for an index within the table |
| Resolver.ReplaceChar | python/run_eaf_fmu.py:85 | `replace` of one character keeps the length and maps every character pointwise |
| Resolver.RemoveChar | python/run_eaf_fmu.py:85 | `replace(c, '')` keeps exactly the other characters |
| Resolver.ReplaceAppend | python/run_eaf_fmu.py:85 | single-character `replace` distributes over concatenation |
| Resolver.RemoveAppend | python/run_eaf_fmu.py:85 | deleting a character distributes over concatenation, and on one character deletes it or keeps it, so the other characters keep their order and number |
| Resolver.Normalize | python/run_eaf_fmu.py:85 | a normalised name holds no `.` and no space |
| Resolver.NormalizeAppend | python/run_eaf_fmu.py:85-88 | normalising distributes over concatenation, so it works character by character in order |
| Resolver.NormalizeChar | python/run_eaf_fmu.py:85-88 | on one character, `.` becomes `_`, a space disappears and anything else stays |
| Resolver.NormalizeIdempotent | python/run_eaf_fmu.py:85-88 | normalising twice is normalising once |
| Resolver.DotsMatchUnderscores | python/run_eaf_fmu.py:85-88 | a dotted name and its underscore spelling normalise alike |
| Resolver.FindExact | python/run_eaf_fmu.py:81-83 | the first scan returns the first variable named exactly as asked, or none when no name is equal |
| Resolver.FindNormalized | python/run_eaf_fmu.py:85-90 | the second scan returns the first variable whose normalised name matches, or none when none does |
| Resolver.GetVr | python/run_eaf_fmu.py:79-92 | `get_vr`: the exact scan, then the normalised scan, then `(None, None)`; its promises are stated by `Resolver.ExactFirst`, `Resolver.NormalizedFallback`, `Resolver.NotFound` and `Resolver.ResolvedMatches` |
| Resolver.ExactFirst | python/run_eaf_fmu.py:81-83 | the first exact match is returned, whatever matches after normalising |
| Resolver.NormalizedFallback | python/run_eaf_fmu.py:85-90 | with no exact match, the first normalised match is returned |
| Resolver.NotFound | python/run_eaf_fmu.py:92 | `(None, None)` is returned iff no variable's normalised name equals the normalised query |
| Resolver.ResolvedMatches | python/run_eaf_fmu.py:79-92 | a successful lookup returns a variable whose name matches at least after normalising |
| Resolver.ExactBeatsEarlierNormalized | python/run_eaf_fmu.py:81-83 | `EAF.Fixed.R_sys` resolves to itself even when `EAF_Fixed_R_sys` comes earlier |
| Runner.Found | python/run_eaf_fmu.py:118-126 | the found names are no more than the names asked for, and each one resolves |
| Runner.FoundAppend | python/run_eaf_fmu.py:118-126 | the search distributes over concatenation, so the found names are an in-order subsequence of the names asked for |
| Runner.FoundSingle | python/run_eaf_fmu.py:120-124 | one name is kept exactly when it resolves |
| Runner.FoundExactly | python/run_eaf_fmu.py:118-126 | a name is found iff it is asked for and resolves |
| Runner.Handles | python/run_eaf_fmu.py:118-124 | `output_vrs`: one value reference per found name, index for index; tied to the loop by `Runner.ResolveOutputs` |
| Runner.ResolveOutputs | python/run_eaf_fmu.py:118-126 | the loop keeps the names that resolve, in order, and their value references index for index |
| Runner.ToFloat | python/run_eaf_fmu.py:146 | `float()` keeps ints and floats, turns True into 1.0 and False into 0.0; None, lists and dicts raise |
| Runner.Truncate | python/run_eaf_fmu.py:148 | `int()` of a float truncates toward zero |
| Runner.ToInt | python/run_eaf_fmu.py:148 | `int()` keeps ints, truncates floats toward zero, turns True into 1 and False into 0; None, lists and dicts raise |
| Runner.NumberConversions | python/run_eaf_fmu.py:146-150 | for a number, `int()` and `float()` succeed, `bool()` is true iff `float()` is not zero, and `int()` truncates `float()` |
| Runner.Truthy | python/run_eaf_fmu.py:150 | `bool(value)`, Python truthiness of a JSON value; for numbers it agrees with `float()` being non-zero, as `Runner.NumberConversions` states, and it is the value a Boolean write carries, as `Runner.WriteForConverts` states |
| Runner.WriteFor | python/run_eaf_fmu.py:143-150 | an entry is written only through the setter of its variable's declared type and to its value reference; unresolved, String or Enumeration variables get no write; a failure names the entry |
| Runner.WriteForConverts | python/run_eaf_fmu.py:143-150 | the written value is `float()`, `int()` or `bool()` of the entry's value by the setter's type; an entry resolving to a Real, Integer or Boolean variable is written unless its conversion raises; only `float()` of a Real entry or `int()` of an Integer entry can raise |
| Runner.WritePlan | python/run_eaf_fmu.py:142-150 | the write loop in dict order, stopping at the first conversion that raises: at most one write per entry |
| Runner.PlanStep | python/run_eaf_fmu.py:142-150 | the loop takes the entries in dict order: after entries 0..k-1 without a fault, entry k adds exactly its own write (or none) at the end of the log, or stops the loop with its own fault |
| Runner.PlanFaultPersists | python/run_eaf_fmu.py:142-150 | after a conversion raises, later entries make no writes |
| Runner.PlanCompletes | python/run_eaf_fmu.py:142-150 | the write loop completes iff every entry converts |
| Runner.PlanWrites | python/run_eaf_fmu.py:142-150 | a completed write loop makes exactly the writes its entries call for |
| Runner.PlanFault | python/run_eaf_fmu.py:142-150 | a failed write loop stops at an entry whose conversion raises, after the writes of the entries before it |
| Runner.WriteEntry | python/run_eaf_fmu.py:143-150 | one pass of the parameter loop appends exactly the write `WriteFor` gives, and reports whether the conversion raised; the instance stays in initialisation with no step |
| Runner.WriteParameters | python/run_eaf_fmu.py:142-150 | the slave's write log grows by exactly the planned writes, and the fault is the planned one |
| Runner.StopSeen | python/run_eaf_fmu.py:175-185 | the stop rule after n steps; a missing stop variable, or one of type String or Enumeration, is never raised |
| Runner.ReadStop | python/run_eaf_fmu.py:175-185 | the stop flag is Boolean as read, Real `>= 0.99`, Integer `== 1`, and false otherwise |
| Runner.Outputs | python/run_eaf_fmu.py:187 | `fmu.getReal(output_vrs)` after n steps: one value per handle, in order; tied to the slave's reads by `CoSimulation.Slave.GetReal` and to the rows by `Runner.Trace` |
| Runner.Trace | python/run_eaf_fmu.py:169-195 | what a run of the step loop emits: row i at time (i+1)·step with the outputs after step i+1, no stop before the last row, and the last row either the first with the stop raised or the 10001st; its consequences are stated by the lemmas below |
| Runner.StepLoop | python/run_eaf_fmu.py:155-195 | the rows form a trace; the step log is one `doStep` per row, step i at time i·step, so no step follows the stop row; the start time and the write log are kept |
| Runner.MaxStepsValue | python/run_eaf_fmu.py:155-169 | the guard passes 10001 times: the last pre-step time is within the limit and the next one is beyond it |
| Runner.StepLog | python/run_eaf_fmu.py:171 | the `doStep` calls of an n-step run, step i at communication point i·step with size step; `Runner.StepPoints` ties them to the row times and `Runner.StepLoop` to the slave |
| Runner.RowTimes | python/run_eaf_fmu.py:173-189 | the first row is at one step and each later row one step after the row before it |
| Runner.StepPoints | python/run_eaf_fmu.py:171-173 | the first step starts at 0, every later step at the time of the previous row, and the last step ends at the last row's time |
| Runner.TraceDetermined | python/run_eaf_fmu.py:169-195 | the rows and the stop flag are determined by the slave's values, the columns and the stop variable |
| Runner.TimedOut | python/run_eaf_fmu.py:169-195 | a run that never sees the stop signal writes 10001 rows, the last at time 10001 |
| Runner.StopsAtFirstSignal | python/run_eaf_fmu.py:171-195 | a run whose stop signal is first raised after step n writes exactly n rows and stops |
| Runner.NoStopVariable | python/run_eaf_fmu.py:128-185 | without a stop variable of type Boolean, Real or Integer, the run always goes to the limit |
| Runner.Initialize | python/run_eaf_fmu.py:137-150 | instantiate, set up at time 0, enter initialisation, then write the parameters |
| Runner.Drive | python/run_eaf_fmu.py:153-200 | leave initialisation, step as the trace says with one `doStep` per row, then terminate and free; the start time and the write log are kept |
| Runner.Simulate | python/run_eaf_fmu.py:118-202 | the start time is 0 and the write log is the plan's; the header is `Time` then the found outputs; a failed conversion abandons the run before any step, leaving the instance in initialisation, neither terminated nor freed; otherwise the rows form the trace, with one `doStep` per row, and the instance is freed |
| Runner.Run | python/run_eaf_fmu.py:95-202 | an empty control document does nothing; a malformed section raises from flattening before the instance is touched; otherwise the run as `Simulate` states it |
| CoSimulation.Slave.Instantiate | python/run_eaf_fmu.py:137 | a created instance becomes instantiated |
| CoSimulation.Slave.SetupExperiment | python/run_eaf_fmu.py:138 | an instantiated instance records the start time it is given |
| CoSimulation.Slave.EnterInitializationMode | python/run_eaf_fmu.py:139 | an instantiated instance enters initialisation, where the setters may be called |
| CoSimulation.Slave.SetReal | python/run_eaf_fmu.py:146 | a Real write is appended to the write log |
| CoSimulation.Slave.SetInteger | python/run_eaf_fmu.py:148 | an Integer write is appended to the write log |
| CoSimulation.Slave.SetBoolean | python/run_eaf_fmu.py:150 | a Boolean write is appended to the write log |
| CoSimulation.Slave.ExitInitializationMode | python/run_eaf_fmu.py:153 | an initialising instance starts stepping |
| CoSimulation.Slave.DoStep | python/run_eaf_fmu.py:171 | a step is appended to the step log |
| CoSimulation.Slave.GetReal | python/run_eaf_fmu.py:181-187 | each value read is the oracle's value for that handle after the steps taken so far |
| CoSimulation.Slave.GetInteger | python/run_eaf_fmu.py:184 | the value read is the oracle's value after the steps taken so far |
| CoSimulation.Slave.GetBoolean | python/run_eaf_fmu.py:178 | the value read is the oracle's value after the steps taken so far |
| CoSimulation.Slave.Terminate | python/run_eaf_fmu.py:199 | a stepping instance is terminated |
| CoSimulation.Slave.FreeInstance | python/run_eaf_fmu.py:200 | a terminated instance is freed |

## Left out

- Reading and parsing the two JSON documents (`load_json_config`). The parsed documents are inputs. The early return on a falsy `control_data` is modelled as the empty dict only.
- FMU extraction, reading the model description and the FMU's own computation. The model description is a sequence of variables, and what the FMU computes is an oracle of values per step count.
- Exceptions raised inside fmpy calls, such as instantiation or step failures, are not modelled.
- CSV file writing and console output. Rows are returned as a sequence; the header is returned with them.
- The `except`/`finally` handling and the removal of the unpacked directory. A conversion that raises ends the run as `WriteFault`, standing for the caught exception. The instance is then left in initialisation, never terminated or freed, as `Runner.Simulate` states.
- The stop variable's name is a parameter of `Runner.Run`; its default value `"stop"` is not modelled.
- Floating-point time: `time` is an exact real, so the rounding of `time += step_size` is not modelled.
- Floating-point values: configuration numbers (`JReal`) and the FMU's Real values (`Oracle.realAt`) are exact reals. JSON's `NaN` and `Infinity` are not represented, so the model misses that `int()` raises on them (line 148) and that a `NaN` stop value compares false with 0.99 (line 182). It also misses that `float()` of a very large integer raises OverflowError (line 146).
- Document shapes: `Run` and `MapParameters` take both documents as JSON objects. `json.load` can also return a list, string, number or null. A truthy non-object control document then raises AttributeError at line 26, and a non-object configuration document raises at line 38. Both exceptions escape `run_simulation_realtime`, because `map_parameters` (line 99) runs outside the `try`; the model does not represent these documents.
- Runner.ToFloat: strings convert only when they are unsigned decimal digits. Python's `float()` also accepts signs, surrounding whitespace, fractions, exponents, `inf` and `nan`.
- Runner.ToInt: strings convert only when they are unsigned decimal digits. Python's `int()` also accepts signs, surrounding whitespace and underscores between digits.
- Flatten.TapValues: a JSON object under `Tap_Lookup_V` is treated as an exception. Python would enumerate its keys in document order, which a `map` does not keep.
- `python/run_lf_fmu.py` and `python/run_cc_fmu.py` are not part of this model. They are thin wrappers around a library simulation call.
- A write-then-read-back verification pass is not part of this model, because the script has none.
