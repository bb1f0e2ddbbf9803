/**
 * `map_parameters`: flattening the control and configuration documents into
 * the dict of qualified FMU parameter names the runner writes.
 */
module Flatten {
  import opened Wrappers
  import opened ConfigTree
  import opened OrderedDict
  import Decimal

  /** The stage sections, in the order that numbers them 1 to 4. */
  const StageSections: seq<string> :=
    ["Stage1_Boredown", "Stage2_Melting", "Stage3_Foaming", "Stage4_Refining"]

  /** The four setpoints every stage carries. */
  datatype StageField = KTap | ZSet | O2 | C

  /** The last segment of the qualified name a stage field is written to. */
  function TargetName(f: StageField): string {
    match f
    case KTap => "k_tap"
    case ZSet => "Z_set"
    case O2 => "O2"
    case C => "C"
  }

  /** The configuration key of a stage field, before its stage number. */
  function SourcePrefix(f: StageField): string {
    match f
    case KTap => "k_tap_"
    case ZSet => "Z_set_"
    case O2 => "mass_flow_O2_"
    case C => "mass_flow_CO2_"
  }

  /** `f'EAF.Control.Stage{idx}.k_tap'` and its three siblings. */
  function StageKey(idx: nat, f: StageField): string {
    "EAF.Control.Stage" + Decimal.Digits(idx) + "." + TargetName(f)
  }

  /** `f'k_tap_{idx}'` and its three siblings. */
  function StageSourceKey(idx: nat, f: StageField): string {
    SourcePrefix(f) + Decimal.Digits(idx)
  }

  /** `f'EAF.Fixed.Tap_Lookup_V[1,{j}]'`. */
  function TapKey(j: nat): string {
    "EAF.Fixed.Tap_Lookup_V[1," + Decimal.Digits(j) + "]"
  }

  const RSys := "EAF.Fixed.R_sys"
  const XSys := "EAF.Fixed.X_sys"
  const RFur := "EAF.Fixed.R_fur"
  const REle := "EAF.Fixed.R_ele"
  const AFurnace := "EAF.Fixed.A_furnace"
  const RhoSolid := "EAF.Fixed.rho_solid"
  const TAmb := "EAF.Fixed.T_amb"
  const TOutSteel := "EAF.Fixed.T_out_steel"
  const MSolid0 := "EAF.State.m_solid_0"
  const MLiq := "EAF.State.m_liq"
  const TSolid := "EAF.State.T_solid"
  const TLiq := "EAF.State.T_liq"

  /** The four assignments for the stage numbered `idx`, whose section is `s`. */
  function StageAssignments(s: Dict, idx: nat): seq<Param> {
    [ Param(StageKey(idx, KTap), Get(s, StageSourceKey(idx, KTap))),
      Param(StageKey(idx, ZSet), Get(s, StageSourceKey(idx, ZSet))),
      Param(StageKey(idx, O2), Get(s, StageSourceKey(idx, O2))),
      Param(StageKey(idx, C), Get(s, StageSourceKey(idx, C))) ]
  }

  /** The assignments of the first `n` passes of the stage loop. */
  function StageAssignmentsUpTo(stages: Dict, n: nat): Result<seq<Param>, Fault>
    requires n <= |StageSections|
  {
    if n == 0 then Success([])
    else
      var prev :- StageAssignmentsUpTo(stages, n - 1);
      var s :- Section(stages, StageSections[n - 1]);
      Success(prev + StageAssignments(s, n))
  }

  /** Once a pass of the stage loop raises, so does the whole loop. */
  lemma {:induction false} StageFaultPersists(stages: Dict, n: nat, m: nat)
    requires n <= m <= |StageSections|
    requires StageAssignmentsUpTo(stages, n).Failure?
    ensures StageAssignmentsUpTo(stages, m) == StageAssignmentsUpTo(stages, n)
    decreases m - n
  {
    if n < m {
      StageFaultPersists(stages, n, m - 1);
    }
  }

  /**
   * `enumerate(elec.get('Tap_Lookup_V', []))`: the items of a list, the
   * one-character strings of a string; anything else cannot be enumerated.
   */
  function TapValues(elec: Dict): (r: Result<seq<Value>, Fault>)
    ensures r.Success? <==> "Tap_Lookup_V" !in elec || elec["Tap_Lookup_V"].JArray? || elec["Tap_Lookup_V"].JString?
    ensures "Tap_Lookup_V" !in elec ==> r == Success([])
    ensures "Tap_Lookup_V" in elec && elec["Tap_Lookup_V"].JArray? ==> r == Success(elec["Tap_Lookup_V"].items)
    ensures r.Success? && "Tap_Lookup_V" in elec && elec["Tap_Lookup_V"].JString? ==>
      |r.value| == |elec["Tap_Lookup_V"].s| &&
      forall k :: 0 <= k < |r.value| ==> r.value[k] == JString([elec["Tap_Lookup_V"].s[k]])
    ensures r.Failure? ==> r.error == NotIterable("Tap_Lookup_V")
  {
    if "Tap_Lookup_V" !in elec then Success([])
    else match elec["Tap_Lookup_V"]
      case JArray(items) => Success(items)
      case JString(s) => Success(seq(|s|, k requires 0 <= k < |s| => JString([s[k]])))
      case _ => Failure(NotIterable("Tap_Lookup_V"))
  }

  /** The assignments of the tap loop: element k goes to index k + 1. */
  function TapAssignments(taps: seq<Value>): seq<Param> {
    seq(|taps|, k requires 0 <= k < |taps| => Param(TapKey(k + 1), taps[k]))
  }

  /**
   * Every assignment `map_parameters` makes to `start_values`, in order, or
   * the exception a section of the wrong shape raises first.
   */
  function Assignments(control: Dict, config: Dict): Result<seq<Param>, Fault> {
    var staged :- ControlAssignments(control);
    var fixed :- FixedAssignments(config);
    var initial :- InitialAssignments(config);
    Success(staged + fixed + initial)
  }

  /** Part A, the control stages. */
  function ControlAssignments(control: Dict): Result<seq<Param>, Fault> {
    var stages :- Section(control, "control_stages");
    StageAssignmentsUpTo(stages, |StageSections|)
  }

  /** Part B, the fixed parameters. */
  function FixedAssignments(config: Dict): Result<seq<Param>, Fault> {
    var fixed :- Section(config, "fixed_parameters");
    var elec :- Section(fixed, "electrical");
    var taps :- TapValues(elec);
    var geo :- Section(fixed, "geometry");
    var mat :- Section(fixed, "materials");
    var env :- Section(fixed, "environment");
    Success(ElectricalAssignments(elec, taps) + GeometryAssignments(geo)
      + MaterialsAssignments(mat) + EnvironmentAssignments(env))
  }

  /** Part C, the initial states. */
  function InitialAssignments(config: Dict): Result<seq<Param>, Fault> {
    var init :- Section(config, "initial_states");
    var mass :- Section(init, "mass");
    var temp :- Section(init, "temperature");
    Success(MassAssignments(mass) + TemperatureAssignments(temp))
  }

  function ElectricalAssignments(elec: Dict, taps: seq<Value>): seq<Param> {
    [Param(RSys, Get(elec, "R_sys")), Param(XSys, Get(elec, "X_sys"))] + TapAssignments(taps)
  }

  function GeometryAssignments(geo: Dict): seq<Param> {
    [Param(RFur, Get(geo, "R_fur")), Param(REle, Get(geo, "R_ele"))]
    + (if "A_furnace" in geo then [Param(AFurnace, Get(geo, "A_furnace"))] else [])
  }

  function MaterialsAssignments(mat: Dict): seq<Param> {
    [Param(RhoSolid, Get(mat, "rho_solid"))]
  }

  function EnvironmentAssignments(env: Dict): seq<Param> {
    [Param(TAmb, Get(env, "T_amb")), Param(TOutSteel, Get(env, "T_out_steel_target"))]
  }

  function MassAssignments(mass: Dict): seq<Param> {
    [Param(MSolid0, Get(mass, "m_solid_0")), Param(MLiq, Get(mass, "m_liq_0"))]
  }

  function TemperatureAssignments(temp: Dict): seq<Param> {
    [Param(TSolid, Get(temp, "T_solid_0")), Param(TLiq, Get(temp, "T_liq_0"))]
  }

  /** The dict `map_parameters` returns: the assignments performed, then None dropped. */
  function Flattened(control: Dict, config: Dict): (r: Result<seq<Param>, Fault>)
    ensures r.Success? ==> UniqueNames(r.value)
    ensures r.Success? ==> forall p :: p in r.value ==> p.value != JNull
  {
    var made :- Assignments(control, config);
    Success(DropNulls(Apply([], made)))
  }

  /**
   * A part of `map_parameters` has run as its specification says: it raised
   * the part's exception, or it performed the part's assignments on `d`.
   */
  predicate Performed(r: Result<seq<Param>, Fault>, part: Result<seq<Param>, Fault>, d: seq<Param>) {
    match part
    case Failure(e) => r == Failure(e)
    case Success(items) => r == Success(Apply(d, items))
  }

  /** Adding element k to the tap assignments of the first k elements. */
  lemma TapAssignmentsSnoc(taps: seq<Value>, k: nat)
    requires k < |taps|
    ensures TapAssignments(taps[..k + 1]) == TapAssignments(taps[..k]) + [Param(TapKey(k + 1), taps[k])]
  {
  }

  /** One pass of the stage loop: the four assignments for stage `idx`. */
  method AssignStage(d: seq<Param>, sData: Dict, idx: nat) returns (d': seq<Param>)
    ensures d' == Apply(d, StageAssignments(sData, idx))
  {
    d' := Assign(d, StageKey(idx, KTap), Get(sData, StageSourceKey(idx, KTap)));
    d' := Assign(d', StageKey(idx, ZSet), Get(sData, StageSourceKey(idx, ZSet)));
    d' := Assign(d', StageKey(idx, O2), Get(sData, StageSourceKey(idx, O2)));
    d' := Assign(d', StageKey(idx, C), Get(sData, StageSourceKey(idx, C)));
    ApplyUnfold4(d, StageAssignments(sData, idx));
  }

  /** The tap loop: element k of the table is assigned to index k + 1. */
  method AssignTaps(d: seq<Param>, taps: seq<Value>) returns (d': seq<Param>)
    ensures d' == Apply(d, TapAssignments(taps))
  {
    d' := d;
    var k := 0;
    while k < |taps|
      invariant 0 <= k <= |taps|
      invariant d' == Apply(d, TapAssignments(taps[..k]))
    {
      d' := Assign(d', TapKey(k + 1), taps[k]);
      TapAssignmentsSnoc(taps, k);
      ApplySnoc(d, TapAssignments(taps[..k]), Param(TapKey(k + 1), taps[k]));
      k := k + 1;
    }
    assert taps[..|taps|] == taps;
  }

  /** `R_sys`, `X_sys` and the tap loop. */
  method AssignElectrical(d: seq<Param>, elec: Dict, taps: seq<Value>) returns (d': seq<Param>)
    ensures d' == Apply(d, ElectricalAssignments(elec, taps))
  {
    var head := [Param(RSys, Get(elec, "R_sys")), Param(XSys, Get(elec, "X_sys"))];
    d' := Assign(d, RSys, Get(elec, "R_sys"));
    d' := Assign(d', XSys, Get(elec, "X_sys"));
    ApplyUnfold2(d, head);
    d' := AssignTaps(d', taps);
    ApplyAppend(d, head, TapAssignments(taps));
  }

  /** `R_fur`, `R_ele`, and `A_furnace` when the geometry section has that key. */
  method AssignGeometry(d: seq<Param>, geo: Dict) returns (d': seq<Param>)
    ensures d' == Apply(d, GeometryAssignments(geo))
  {
    var head := [Param(RFur, Get(geo, "R_fur")), Param(REle, Get(geo, "R_ele"))];
    d' := Assign(d, RFur, Get(geo, "R_fur"));
    d' := Assign(d', REle, Get(geo, "R_ele"));
    ApplyUnfold2(d, head);
    if "A_furnace" in geo {
      d' := Assign(d', AFurnace, Get(geo, "A_furnace"));
      ApplySnoc(d, head, Param(AFurnace, Get(geo, "A_furnace")));
    } else {
      assert head + [] == head;
    }
  }

  /** Part A: the stage loop, on the empty dict. */
  method AssignControl(control: Dict) returns (r: Result<seq<Param>, Fault>)
    ensures Performed(r, ControlAssignments(control), [])
  {
    var startValues: seq<Param> := [];
    var stages :- Section(control, "control_stages");
    ghost var done: seq<Param> := [];
    var i := 0;
    while i < |StageSections|
      invariant 0 <= i <= |StageSections|
      invariant StageAssignmentsUpTo(stages, i) == Success(done)
      invariant startValues == Apply([], done)
    {
      var sDataOrFault := Section(stages, StageSections[i]);
      if sDataOrFault.Failure? {
        StageFaultPersists(stages, i + 1, |StageSections|);
        return Failure(sDataOrFault.error);
      }
      var block := StageAssignments(sDataOrFault.value, i + 1);
      startValues := AssignStage(startValues, sDataOrFault.value, i + 1);
      ApplyAppend([], done, block);
      done := done + block;
      i := i + 1;
    }
    r := Success(startValues);
  }

  /** Part B: electrical (with the tap loop), geometry, materials, environment. */
  method AssignFixed(d: seq<Param>, config: Dict) returns (r: Result<seq<Param>, Fault>)
    ensures Performed(r, FixedAssignments(config), d)
  {
    var fixed :- Section(config, "fixed_parameters");
    var elec :- Section(fixed, "electrical");
    var taps :- TapValues(elec);
    var startValues := AssignElectrical(d, elec, taps);
    var geo :- Section(fixed, "geometry");
    startValues := AssignGeometry(startValues, geo);
    var mat :- Section(fixed, "materials");
    startValues := Assign(startValues, RhoSolid, Get(mat, "rho_solid"));
    var env :- Section(fixed, "environment");
    startValues := Assign(startValues, TAmb, Get(env, "T_amb"));
    startValues := Assign(startValues, TOutSteel, Get(env, "T_out_steel_target"));
    var e := ElectricalAssignments(elec, taps);
    var g := GeometryAssignments(geo);
    var m := MaterialsAssignments(mat);
    var v := EnvironmentAssignments(env);
    ApplyUnfold1(Apply(Apply(d, e), g), m);
    ApplyUnfold2(Apply(Apply(Apply(d, e), g), m), v);
    ApplyAppend(d, e, g);
    ApplyAppend(d, e + g, m);
    ApplyAppend(d, e + g + m, v);
    r := Success(startValues);
  }

  /** Part C: mass and temperature. */
  method AssignInitial(d: seq<Param>, config: Dict) returns (r: Result<seq<Param>, Fault>)
    ensures Performed(r, InitialAssignments(config), d)
  {
    var init :- Section(config, "initial_states");
    var mass :- Section(init, "mass");
    var startValues := Assign(d, MSolid0, Get(mass, "m_solid_0"));
    startValues := Assign(startValues, MLiq, Get(mass, "m_liq_0"));
    var temp :- Section(init, "temperature");
    startValues := Assign(startValues, TSolid, Get(temp, "T_solid_0"));
    startValues := Assign(startValues, TLiq, Get(temp, "T_liq_0"));
    var m := MassAssignments(mass);
    var t := TemperatureAssignments(temp);
    ApplyUnfold2(d, m);
    ApplyUnfold2(Apply(d, m), t);
    ApplyAppend(d, m, t);
    r := Success(startValues);
  }

  /** `map_parameters`, built step by step as the source builds `start_values`. */
  method MapParameters(control: Dict, config: Dict) returns (r: Result<seq<Param>, Fault>)
    ensures r == Flattened(control, config)
  {
    var staged := AssignControl(control);
    if staged.Failure? {
      return Failure(staged.error);
    }
    var fixed := AssignFixed(staged.value, config);
    if fixed.Failure? {
      return Failure(fixed.error);
    }
    var initial := AssignInitial(fixed.value, config);
    if initial.Failure? {
      return Failure(initial.error);
    }
    var a := ControlAssignments(control).value;
    var b := FixedAssignments(config).value;
    ApplyAppend([], a, b);
    ApplyAppend([], a + b, InitialAssignments(config).value);
    r := Success(DropNulls(initial.value));
  }
}
