/**
 * What `map_parameters` promises about the dict it returns: no name twice,
 * no None value, and every qualified name bound to the configuration field
 * it is read from, or absent when that field is missing or None.
 */
module FlattenFacts {
  import opened Wrappers
  import opened ConfigTree
  import opened OrderedDict
  import opened Flatten
  import Decimal

  // ----- Where each qualified name is read from -----

  /** The configuration field that stage `idx`'s field `f` is read from (None when absent). */
  function StageSource(control: Dict, idx: nat, f: StageField): Value
    requires 1 <= idx <= |StageSections|
  {
    Get(SectionOrEmpty(SectionOrEmpty(control, "control_stages"), StageSections[idx - 1]),
        StageSourceKey(idx, f))
  }

  /** A scalar parameter: its qualified name and the `group.section.field` it is read from. */
  datatype ScalarBinding = ScalarBinding(name: string, group: string, section: string, field: string)

  /** Every scalar parameter of the fixed-parameter and initial-state documents. */
  const ScalarBindings: seq<ScalarBinding> := [
    ScalarBinding(RSys, "fixed_parameters", "electrical", "R_sys"),
    ScalarBinding(XSys, "fixed_parameters", "electrical", "X_sys"),
    ScalarBinding(RFur, "fixed_parameters", "geometry", "R_fur"),
    ScalarBinding(REle, "fixed_parameters", "geometry", "R_ele"),
    ScalarBinding(AFurnace, "fixed_parameters", "geometry", "A_furnace"),
    ScalarBinding(RhoSolid, "fixed_parameters", "materials", "rho_solid"),
    ScalarBinding(TAmb, "fixed_parameters", "environment", "T_amb"),
    ScalarBinding(TOutSteel, "fixed_parameters", "environment", "T_out_steel_target"),
    ScalarBinding(MSolid0, "initial_states", "mass", "m_solid_0"),
    ScalarBinding(MLiq, "initial_states", "mass", "m_liq_0"),
    ScalarBinding(TSolid, "initial_states", "temperature", "T_solid_0"),
    ScalarBinding(TLiq, "initial_states", "temperature", "T_liq_0")
  ]

  /** The configuration field a scalar parameter is read from (None when absent). */
  function ScalarSource(config: Dict, b: ScalarBinding): Value {
    Get(SectionOrEmpty(SectionOrEmpty(config, b.group), b.section), b.field)
  }

  /** The tap-voltage table as the tap loop enumerates it. */
  function TapSource(config: Dict): Result<seq<Value>, Fault> {
    TapValues(SectionOrEmpty(SectionOrEmpty(config, "fixed_parameters"), "electrical"))
  }

  predicate IsStageKey(n: string) {
    exists idx, f :: 1 <= idx <= |StageSections| && n == StageKey(idx, f)
  }

  predicate IsScalarName(n: string) {
    exists i :: 0 <= i < |ScalarBindings| && ScalarBindings[i].name == n
  }

  /** The names `map_parameters` can produce, given a tap table of `tapCount` elements. */
  predicate KnownName(n: string, tapCount: nat) {
    IsStageKey(n) || IsScalarName(n) || exists j :: 1 <= j <= tapCount && n == TapKey(j)
  }

  // ----- The shape of the names -----
  // Proof helpers: the predicates below tell the qualified names apart by a
  // character at a fixed position, which is cheaper for the verifier than
  // comparing whole strings.  They are not concepts of the flattener.

  /** Proof helper: tap keys, and only they among the names produced, read `Ta` at positions 10 and 11. */
  predicate IsTapName(n: string) {
    |n| > 11 && n[10] == 'T' && n[11] == 'a'
  }

  /** Proof helper: names differ at position 4 between stage (C), fixed (F) and state (S) parameters. */
  predicate NamesMarked(ps: seq<Param>, c: char) {
    forall p :: p in ps ==> |p.name| > 4 && p.name[4] == c
  }

  lemma UniqueConcat(a: seq<Param>, b: seq<Param>)
    requires UniqueNames(a) && UniqueNames(b)
    requires forall p, q :: p in a && q in b ==> p.name != q.name
    ensures UniqueNames(a + b)
  {
    forall i, j | 0 <= i < j < |a + b| ensures (a + b)[i].name != (a + b)[j].name {
      if j >= |a| && i < |a| {
        assert (a + b)[i] in a && (a + b)[j] in b;
      }
    }
  }

  /** Different stages or fields give different stage keys. */
  lemma StageKeyInjective(i: nat, f: StageField, j: nat, g: StageField)
    requires 1 <= i < 10 && 1 <= j < 10
    ensures StageKey(i, f) == StageKey(j, g) ==> i == j && f == g
  {
    assert StageKey(i, f)[17] == Decimal.DigitChar(i);
    assert StageKey(j, g)[17] == Decimal.DigitChar(j);
    assert StageKey(i, f)[19] == TargetName(f)[0];
    assert StageKey(j, g)[19] == TargetName(g)[0];
  }

  /** Different tap indices give different tap keys. */
  lemma TapKeyInjective(j: nat, k: nat)
    ensures TapKey(j) == TapKey(k) ==> j == k
  {
    var p := "EAF.Fixed.Tap_Lookup_V[1,";
    if TapKey(j) == TapKey(k) {
      var dj, dk := Decimal.Digits(j), Decimal.Digits(k);
      assert |dj| == |dk|;
      assert dj == TapKey(j)[|p|..|p| + |dj|];
      assert dk == TapKey(k)[|p|..|p| + |dk|];
      Decimal.DigitsInjective(j, k);
    }
  }

  /** Proof helper: stage keys carry C at position 4 and their stage's digit at position 17. */
  predicate StageMarked(n: string, idx: nat) {
    |n| > 17 && n[4] == 'C' && n[17] as int - '0' as int == idx
  }

  lemma StageKeyShape(idx: nat, f: StageField)
    requires 1 <= idx < 10
    ensures StageMarked(StageKey(idx, f), idx)
  {
    assert StageKey(idx, f)[17] == Decimal.DigitChar(idx);
  }

  /** One pass of the stage loop binds the four keys of its stage, once each. */
  lemma StageBlockUnique(s: Dict, idx: nat)
    requires 1 <= idx <= |StageSections|
    ensures UniqueNames(StageAssignments(s, idx))
  {
    forall f, g | f != g ensures StageKey(idx, f) != StageKey(idx, g) {
      StageKeyInjective(idx, f, idx, g);
    }
  }

  /** The keys of one pass carry that stage's marks. */
  lemma StageBlockNames(s: Dict, idx: nat)
    requires 1 <= idx <= |StageSections|
    ensures forall p :: p in StageAssignments(s, idx) ==> StageMarked(p.name, idx) && IsStageKey(p.name)
  {
    var block := StageAssignments(s, idx);
    forall i | 0 <= i < 4 ensures StageMarked(block[i].name, idx) && IsStageKey(block[i].name) {
      var f := [KTap, ZSet, O2, C][i];
      assert block[i].name == StageKey(idx, f);
      StageKeyShape(idx, f);
    }
  }

  /** One pass binds each field's key to the stage section's source field. */
  lemma StageBlockValues(s: Dict, idx: nat)
    requires 1 <= idx <= |StageSections|
    ensures forall f :: Param(StageKey(idx, f), Get(s, StageSourceKey(idx, f))) in StageAssignments(s, idx)
  {
    var block := StageAssignments(s, idx);
    forall f ensures Param(StageKey(idx, f), Get(s, StageSourceKey(idx, f))) in block {
      match f
      case KTap => assert block[0] == Param(StageKey(idx, f), Get(s, StageSourceKey(idx, f)));
      case ZSet => assert block[1] == Param(StageKey(idx, f), Get(s, StageSourceKey(idx, f)));
      case O2 => assert block[2] == Param(StageKey(idx, f), Get(s, StageSourceKey(idx, f)));
      case C => assert block[3] == Param(StageKey(idx, f), Get(s, StageSourceKey(idx, f)));
    }
  }

  /** Proof helper: a successful pass `n` appends the block of stage `n` to the earlier passes. */
  lemma StageStep(stages: Dict, n: nat)
    requires 0 < n <= |StageSections|
    requires StageAssignmentsUpTo(stages, n).Success?
    ensures StageAssignmentsUpTo(stages, n - 1).Success?
    ensures StageAssignmentsUpTo(stages, n).value ==
      StageAssignmentsUpTo(stages, n - 1).value + StageAssignments(SectionOrEmpty(stages, StageSections[n - 1]), n)
  {
  }

  /** Proof helper: every key in `ps` is a stage key marked with a stage from 1 to `n`. */
  predicate StageKeysUpTo(ps: seq<Param>, n: nat) {
    forall p :: p in ps ==> IsStageKey(p.name) && exists idx :: 1 <= idx <= n && StageMarked(p.name, idx)
  }

  /** Proof helper: appending the block of stage `n` to the passes before it keeps the keys unique and marked. */
  lemma StageNamesAppend(prev: seq<Param>, s: Dict, n: nat)
    requires 1 <= n <= |StageSections|
    requires UniqueNames(prev) && StageKeysUpTo(prev, n - 1)
    ensures UniqueNames(prev + StageAssignments(s, n))
    ensures StageKeysUpTo(prev + StageAssignments(s, n), n)
  {
    var block := StageAssignments(s, n);
    StageBlockUnique(s, n);
    StageBlockNames(s, n);
    forall p, q | p in prev && q in block ensures p.name != q.name {
      assert StageMarked(q.name, n);
    }
    UniqueConcat(prev, block);
    forall p | p in prev + block ensures IsStageKey(p.name) && exists idx :: 1 <= idx <= n && StageMarked(p.name, idx) {
      if p in block {
        assert StageMarked(p.name, n);
      }
    }
  }

  /** Proof helper: pass `n` of the stage loop keeps the keys unique and marked. */
  lemma StageNamesStep(stages: Dict, n: nat)
    requires 0 < n <= |StageSections|
    requires StageAssignmentsUpTo(stages, n).Success?
    requires StageAssignmentsUpTo(stages, n - 1).Success?
    requires UniqueNames(StageAssignmentsUpTo(stages, n - 1).value)
    requires StageKeysUpTo(StageAssignmentsUpTo(stages, n - 1).value, n - 1)
    ensures UniqueNames(StageAssignmentsUpTo(stages, n).value)
    ensures StageKeysUpTo(StageAssignmentsUpTo(stages, n).value, n)
  {
    StageStep(stages, n);
    StageNamesAppend(StageAssignmentsUpTo(stages, n - 1).value, SectionOrEmpty(stages, StageSections[n - 1]), n);
  }

  /** The stage loop's first `n` passes bind stage keys of those stages, each once. */
  lemma {:induction false} StagePartNames(stages: Dict, n: nat)
    requires n <= |StageSections|
    requires StageAssignmentsUpTo(stages, n).Success?
    ensures UniqueNames(StageAssignmentsUpTo(stages, n).value)
    ensures StageKeysUpTo(StageAssignmentsUpTo(stages, n).value, n)
  {
    if n > 0 {
      StageStep(stages, n);
      StagePartNames(stages, n - 1);
      StageNamesStep(stages, n);
    }
  }

  /** Proof helper: a later pass of the stage loop keeps what the earlier passes bound. */
  lemma StageKeeps(stages: Dict, n: nat, q: Param)
    requires 0 < n <= |StageSections|
    requires StageAssignmentsUpTo(stages, n).Success?
    requires StageAssignmentsUpTo(stages, n - 1).Success? && q in StageAssignmentsUpTo(stages, n - 1).value
    ensures q in StageAssignmentsUpTo(stages, n).value
  {
    StageStep(stages, n);
  }

  /** Proof helper: pass `n` of the stage loop binds the keys of stage `n`. */
  lemma StageBinds(stages: Dict, n: nat, f: StageField)
    requires 0 < n <= |StageSections|
    requires StageAssignmentsUpTo(stages, n).Success?
    ensures Param(StageKey(n, f), Get(SectionOrEmpty(stages, StageSections[n - 1]), StageSourceKey(n, f)))
      in StageAssignmentsUpTo(stages, n).value
  {
    StageStep(stages, n);
    StageBlockValues(SectionOrEmpty(stages, StageSections[n - 1]), n);
  }

  /** Proof helper: the first `n` passes of the stage loop bind the key of stage `idx` and field `f`. */
  lemma {:induction false} StageValueIn(stages: Dict, n: nat, idx: nat, f: StageField)
    requires 1 <= idx <= n <= |StageSections|
    requires StageAssignmentsUpTo(stages, n).Success?
    ensures Param(StageKey(idx, f), Get(SectionOrEmpty(stages, StageSections[idx - 1]), StageSourceKey(idx, f)))
      in StageAssignmentsUpTo(stages, n).value
  {
    if idx < n {
      StageStep(stages, n);
      StageValueIn(stages, n - 1, idx, f);
      StageKeeps(stages, n, Param(StageKey(idx, f), Get(SectionOrEmpty(stages, StageSections[idx - 1]), StageSourceKey(idx, f))));
    } else {
      StageBinds(stages, n, f);
    }
  }

  /** The stage loop's first `n` passes bind every key of those stages to the stage's field. */
  lemma StagePartValues(stages: Dict, n: nat)
    requires n <= |StageSections|
    requires StageAssignmentsUpTo(stages, n).Success?
    ensures forall idx, f :: 1 <= idx <= n ==>
      Param(StageKey(idx, f), Get(SectionOrEmpty(stages, StageSections[idx - 1]), StageSourceKey(idx, f)))
        in StageAssignmentsUpTo(stages, n).value
  {
    forall idx, f | 1 <= idx <= n
      ensures Param(StageKey(idx, f), Get(SectionOrEmpty(stages, StageSections[idx - 1]), StageSourceKey(idx, f)))
        in StageAssignmentsUpTo(stages, n).value
    {
      StageValueIn(stages, n, idx, f);
    }
  }

  /** The tap loop binds each key once. */
  lemma TapPartUnique(taps: seq<Value>)
    ensures UniqueNames(TapAssignments(taps))
  {
    var ps := TapAssignments(taps);
    forall i, j | 0 <= i < j < |ps| ensures ps[i].name != ps[j].name {
      TapKeyInjective(i + 1, j + 1);
    }
  }

  /** Tap keys are fixed parameters, told apart from the scalar ones by position 10. */
  lemma TapPartShape(taps: seq<Value>)
    ensures forall p :: p in TapAssignments(taps) ==> IsTapName(p.name) && p.name[4] == 'F'
  {
  }

  /** The tap loop binds `TapKey(k + 1)` to element k and nothing else. */
  lemma TapPartKeys(taps: seq<Value>)
    ensures forall p :: p in TapAssignments(taps) ==> exists j :: 1 <= j <= |taps| && p.name == TapKey(j)
    ensures forall k :: 0 <= k < |taps| ==> Param(TapKey(k + 1), taps[k]) in TapAssignments(taps)
  {
    var ps := TapAssignments(taps);
    forall p | p in ps ensures exists j :: 1 <= j <= |taps| && p.name == TapKey(j) {
      var k :| 0 <= k < |ps| && ps[k] == p;
      assert p.name == TapKey(k + 1);
    }
    forall k | 0 <= k < |taps| ensures Param(TapKey(k + 1), taps[k]) in ps {
      assert ps[k] == Param(TapKey(k + 1), taps[k]);
    }
  }

  /** The scalar fixed parameters after the tap loop, each bound once. */
  lemma FixedTailUnique(geo: Dict, mat: Dict, env: Dict)
    ensures UniqueNames(GeometryAssignments(geo) + MaterialsAssignments(mat) + EnvironmentAssignments(env))
  {
  }

  /** Proof helper: a fixed scalar name other than the electrical ones, told apart from tap keys by position 10. */
  predicate TailName(n: string) {
    |n| > 11 && n[4] == 'F' && !IsTapName(n) && n != RSys && n != XSys
  }

  /** Proof helper: the geometry names are scalar names. */
  lemma GeometryScalarNames()
    ensures IsScalarName(RFur) && IsScalarName(REle) && IsScalarName(AFurnace)
  {
    assert ScalarBindings[2].name == RFur;
    assert ScalarBindings[3].name == REle;
    assert ScalarBindings[4].name == AFurnace;
  }

  /** Proof helper: the materials and environment names are scalar names. */
  lemma OtherScalarNames()
    ensures IsScalarName(RhoSolid) && IsScalarName(TAmb) && IsScalarName(TOutSteel)
  {
    assert ScalarBindings[5].name == RhoSolid;
    assert ScalarBindings[6].name == TAmb;
    assert ScalarBindings[7].name == TOutSteel;
  }

  /** The fixed scalar names after the tap loop are all scalar names. */
  lemma FixedTailScalar(geo: Dict, mat: Dict, env: Dict)
    ensures forall p :: p in GeometryAssignments(geo) + MaterialsAssignments(mat) + EnvironmentAssignments(env) ==>
      IsScalarName(p.name)
  {
    var g, m, v := GeometryAssignments(geo), MaterialsAssignments(mat), EnvironmentAssignments(env);
    forall p: Param | p in g + m + v ensures IsScalarName(p.name) {
      if p in g {
        GeometryScalarNames();
        assert p.name == RFur || p.name == REle || p.name == AFurnace;
      } else {
        OtherScalarNames();
        assert p in m || p in v;
        assert p.name == RhoSolid || p.name == TAmb || p.name == TOutSteel;
      }
    }
  }

  lemma GeometryNames(geo: Dict)
    ensures forall p :: p in GeometryAssignments(geo) ==> TailName(p.name)
  {
  }

  lemma MaterialsNames(mat: Dict)
    ensures forall p :: p in MaterialsAssignments(mat) ==> TailName(p.name)
  {
  }

  lemma EnvironmentNames(env: Dict)
    ensures forall p :: p in EnvironmentAssignments(env) ==> TailName(p.name)
  {
  }

  lemma FixedTailNames(geo: Dict, mat: Dict, env: Dict)
    ensures forall p :: p in GeometryAssignments(geo) + MaterialsAssignments(mat) + EnvironmentAssignments(env) ==>
      TailName(p.name)
  {
    GeometryNames(geo);
    MaterialsNames(mat);
    EnvironmentNames(env);
  }

  lemma FixedTailNoArea(geo: Dict, mat: Dict, env: Dict)
    requires "A_furnace" !in geo
    ensures forall p :: p in GeometryAssignments(geo) + MaterialsAssignments(mat) + EnvironmentAssignments(env) ==>
      p.name != AFurnace
  {
  }

  /** A successful part B, with the sections it read named by `SectionOrEmpty`. */
  lemma FixedAssignmentsValue(config: Dict)
    requires FixedAssignments(config).Success?
    ensures TapSource(config).Success?
    ensures var fixed := SectionOrEmpty(config, "fixed_parameters");
      FixedAssignments(config).value ==
        ElectricalAssignments(SectionOrEmpty(fixed, "electrical"), TapSource(config).value)
        + GeometryAssignments(SectionOrEmpty(fixed, "geometry"))
        + MaterialsAssignments(SectionOrEmpty(fixed, "materials"))
        + EnvironmentAssignments(SectionOrEmpty(fixed, "environment"))
  {
    var fixed := Section(config, "fixed_parameters");
    assert fixed.Success?;
    var elec := Section(fixed.value, "electrical");
    assert elec.Success?;
    assert TapValues(elec.value).Success?;
    assert Section(fixed.value, "geometry").Success?;
    assert Section(fixed.value, "materials").Success?;
    assert Section(fixed.value, "environment").Success?;
  }

  /** Proof helper: the two electrical names are scalar names. */
  lemma ElectricalScalar()
    ensures IsScalarName(RSys) && IsScalarName(XSys)
  {
    assert ScalarBindings[0].name == RSys;
    assert ScalarBindings[1].name == XSys;
  }

  /** Proof helper: a name of the electrical head or the tap loop. */
  predicate ElectricalName(n: string) {
    |n| > 4 && n[4] == 'F' && (n == RSys || n == XSys || IsTapName(n))
  }

  /** The electrical head and the tap keys together bind each name once. */
  lemma ElectricalUnique(elec: Dict, taps: seq<Value>)
    ensures UniqueNames(ElectricalAssignments(elec, taps))
    ensures forall p :: p in ElectricalAssignments(elec, taps) ==> ElectricalName(p.name)
  {
    var head := [Param(RSys, Get(elec, "R_sys")), Param(XSys, Get(elec, "X_sys"))];
    TapPartUnique(taps);
    TapPartShape(taps);
    UniqueConcat(head, TapAssignments(taps));
  }

  /** Electrical names and the later fixed names never clash. */
  lemma FixedConcat(e: seq<Param>, g: seq<Param>, m: seq<Param>, v: seq<Param>)
    requires UniqueNames(e) && UniqueNames(g + m + v)
    requires forall p :: p in e ==> ElectricalName(p.name)
    requires forall p :: p in g + m + v ==> TailName(p.name)
    ensures UniqueNames(e + g + m + v)
    ensures NamesMarked(e + g + m + v, 'F')
  {
    UniqueConcat(e, g + m + v);
    assert e + g + m + v == e + (g + m + v);
  }

  /** Part B binds each of its names once. */
  lemma FixedPartUnique(config: Dict)
    requires FixedAssignments(config).Success?
    ensures UniqueNames(FixedAssignments(config).value)
    ensures NamesMarked(FixedAssignments(config).value, 'F')
  {
    FixedAssignmentsValue(config);
    var fixed := SectionOrEmpty(config, "fixed_parameters");
    var elec := SectionOrEmpty(fixed, "electrical");
    var geo := SectionOrEmpty(fixed, "geometry");
    var mat := SectionOrEmpty(fixed, "materials");
    var env := SectionOrEmpty(fixed, "environment");
    ElectricalUnique(elec, TapSource(config).value);
    FixedTailUnique(geo, mat, env);
    FixedTailNames(geo, mat, env);
    FixedConcat(ElectricalAssignments(elec, TapSource(config).value),
                GeometryAssignments(geo), MaterialsAssignments(mat), EnvironmentAssignments(env));
  }

  /** Part B's names are the fixed scalar names and the tap keys. */
  lemma FixedPartNames(config: Dict)
    requires FixedAssignments(config).Success?
    ensures TapSource(config).Success?
    ensures forall p :: p in FixedAssignments(config).value ==>
      IsScalarName(p.name) || exists j :: 1 <= j <= |TapSource(config).value| && p.name == TapKey(j)
  {
    FixedAssignmentsValue(config);
    var fixed := SectionOrEmpty(config, "fixed_parameters");
    var geo := SectionOrEmpty(fixed, "geometry");
    var mat := SectionOrEmpty(fixed, "materials");
    var env := SectionOrEmpty(fixed, "environment");
    var taps := TapSource(config).value;
    TapPartKeys(taps);
    FixedTailScalar(geo, mat, env);
    ElectricalScalar();
  }

  /** Part B binds every fixed scalar name to its field, A_furnace only when the key is there. */
  lemma FixedScalarValues(config: Dict)
    requires FixedAssignments(config).Success?
    ensures var geo := SectionOrEmpty(SectionOrEmpty(config, "fixed_parameters"), "geometry");
      forall b :: b in ScalarBindings && b.group == "fixed_parameters" && (b.name == AFurnace ==> "A_furnace" in geo)
                  ==> Param(b.name, ScalarSource(config, b)) in FixedAssignments(config).value
  {
    FixedAssignmentsValue(config);
  }

  /** Part B binds tap element k to `TapKey(k + 1)`. */
  lemma FixedTapValues(config: Dict)
    requires FixedAssignments(config).Success?
    ensures TapSource(config).Success?
    ensures forall k :: 0 <= k < |TapSource(config).value| ==>
      Param(TapKey(k + 1), TapSource(config).value[k]) in FixedAssignments(config).value
  {
    FixedAssignmentsValue(config);
    TapPartKeys(TapSource(config).value);
  }

  /** Without the `A_furnace` key, part B never names the area. */
  lemma FixedNoArea(config: Dict)
    requires FixedAssignments(config).Success?
    requires "A_furnace" !in SectionOrEmpty(SectionOrEmpty(config, "fixed_parameters"), "geometry")
    ensures forall p :: p in FixedAssignments(config).value ==> p.name != AFurnace
  {
    FixedAssignmentsValue(config);
    var fixed := SectionOrEmpty(config, "fixed_parameters");
    TapPartShape(TapSource(config).value);
    FixedTailNoArea(SectionOrEmpty(fixed, "geometry"), SectionOrEmpty(fixed, "materials"), SectionOrEmpty(fixed, "environment"));
  }

  /** A successful part C, with the sections it read named by `SectionOrEmpty`. */
  lemma InitialAssignmentsValue(config: Dict)
    requires InitialAssignments(config).Success?
    ensures var init := SectionOrEmpty(config, "initial_states");
      InitialAssignments(config).value ==
        MassAssignments(SectionOrEmpty(init, "mass")) + TemperatureAssignments(SectionOrEmpty(init, "temperature"))
  {
    var init := Section(config, "initial_states");
    assert init.Success?;
    assert Section(init.value, "mass").Success?;
    assert Section(init.value, "temperature").Success?;
  }

  lemma StateNamesShape(mass: Dict, temp: Dict)
    ensures UniqueNames(MassAssignments(mass) + TemperatureAssignments(temp))
    ensures NamesMarked(MassAssignments(mass) + TemperatureAssignments(temp), 'S')
  {
  }

  /** Proof helper: the four initial-state names are scalar names. */
  lemma StateScalarNames()
    ensures IsScalarName(MSolid0) && IsScalarName(MLiq) && IsScalarName(TSolid) && IsScalarName(TLiq)
  {
    assert ScalarBindings[8].name == MSolid0;
    assert ScalarBindings[9].name == MLiq;
    assert ScalarBindings[10].name == TSolid;
    assert ScalarBindings[11].name == TLiq;
  }

  lemma StateNamesScalar(mass: Dict, temp: Dict)
    ensures forall p :: p in MassAssignments(mass) + TemperatureAssignments(temp) ==> IsScalarName(p.name)
  {
    StateScalarNames();
  }

  /** Part C binds each initial-state name once, all of them scalar names. */
  lemma InitialPartNames(config: Dict)
    requires InitialAssignments(config).Success?
    ensures UniqueNames(InitialAssignments(config).value)
    ensures NamesMarked(InitialAssignments(config).value, 'S')
    ensures forall p :: p in InitialAssignments(config).value ==> IsScalarName(p.name)
  {
    InitialAssignmentsValue(config);
    var init := SectionOrEmpty(config, "initial_states");
    StateNamesShape(SectionOrEmpty(init, "mass"), SectionOrEmpty(init, "temperature"));
    StateNamesScalar(SectionOrEmpty(init, "mass"), SectionOrEmpty(init, "temperature"));
  }

  /** Part C binds every initial-state name to its field. */
  lemma InitialPartValues(config: Dict)
    requires InitialAssignments(config).Success?
    ensures forall b :: b in ScalarBindings && b.group == "initial_states" ==>
      Param(b.name, ScalarSource(config, b)) in InitialAssignments(config).value
  {
    InitialAssignmentsValue(config);
  }

  /** Part A binds each stage key once. */
  lemma ControlPartNames(control: Dict)
    requires ControlAssignments(control).Success?
    ensures UniqueNames(ControlAssignments(control).value)
    ensures NamesMarked(ControlAssignments(control).value, 'C')
    ensures forall p :: p in ControlAssignments(control).value ==> IsStageKey(p.name)
  {
    var stages := Section(control, "control_stages").value;
    StagePartNames(stages, |StageSections|);
  }

  /** Part A binds every stage key to its stage's field. */
  lemma ControlPartValues(control: Dict)
    requires ControlAssignments(control).Success?
    ensures forall idx, f :: 1 <= idx <= |StageSections| ==>
      Param(StageKey(idx, f), StageSource(control, idx, f)) in ControlAssignments(control).value
  {
    var stages := Section(control, "control_stages").value;
    assert stages == SectionOrEmpty(control, "control_stages");
    StagePartValues(stages, |StageSections|);
  }

  // ----- The dict as a whole -----

  /** A successful run performs the three parts in order. */
  lemma AssignmentsValue(control: Dict, config: Dict)
    requires Assignments(control, config).Success?
    ensures ControlAssignments(control).Success?
    ensures FixedAssignments(config).Success?
    ensures InitialAssignments(config).Success?
    ensures Assignments(control, config).value ==
      ControlAssignments(control).value + FixedAssignments(config).value + InitialAssignments(config).value
  {
  }

  /** No name is assigned twice, so no assignment overwrites another. */
  lemma AssignmentsUnique(control: Dict, config: Dict)
    requires Assignments(control, config).Success?
    ensures UniqueNames(Assignments(control, config).value)
  {
    AssignmentsValue(control, config);
    var a := ControlAssignments(control).value;
    var b := FixedAssignments(config).value;
    var c := InitialAssignments(config).value;
    ControlPartNames(control);
    FixedPartUnique(config);
    InitialPartNames(config);
    UniqueConcat(a, b);
    UniqueConcat(a + b, c);
  }

  /**
   * The flattened dict holds exactly the assignments made, in order, less
   * those whose value is None.  `Assignments` succeeds exactly when
   * `map_parameters` returns instead of raising; the lemmas below take that
   * as their premise.
   */
  lemma FlattenedIsFiltered(control: Dict, config: Dict)
    requires Assignments(control, config).Success?
    ensures Flattened(control, config).Success?
    ensures Flattened(control, config).value == DropNulls(Assignments(control, config).value)
  {
    AssignmentsUnique(control, config);
    ApplyWithoutOverwrite(Assignments(control, config).value);
  }

  // ----- What the flattened dict holds, name by name -----

  /** Proof helper: an assignment made is in the flattened dict exactly when its value is not None. */
  lemma FlattenedItem(control: Dict, config: Dict, k: string, v: Value)
    requires Assignments(control, config).Success?
    requires Param(k, v) in Assignments(control, config).value
    ensures Defines(Flattened(control, config).value, k) <==> v != JNull
    ensures v != JNull ==> Param(k, v) in Flattened(control, config).value
  {
    FlattenedIsFiltered(control, config);
    AssignmentsUnique(control, config);
    FilteredItem(Assignments(control, config).value, k, v);
  }

  /**
   * `EAF.Control.Stage{idx}.{field}` is present exactly when the stage's
   * source field is present and not None, and then holds that value.
   */
  lemma StageParameter(control: Dict, config: Dict, idx: nat, f: StageField)
    requires 1 <= idx <= |StageSections|
    requires Assignments(control, config).Success?
    ensures var ps := Flattened(control, config).value;
      var v := StageSource(control, idx, f);
      && (Defines(ps, StageKey(idx, f)) <==> v != JNull)
      && (v != JNull ==> Param(StageKey(idx, f), v) in ps)
  {
    AssignmentsValue(control, config);
    ControlPartValues(control);
    FlattenedItem(control, config, StageKey(idx, f), StageSource(control, idx, f));
  }

  /** A stage section that is missing contributes no key at all. */
  lemma MissingStage(control: Dict, config: Dict, idx: nat)
    requires 1 <= idx <= |StageSections|
    requires Assignments(control, config).Success?
    requires StageSections[idx - 1] !in SectionOrEmpty(control, "control_stages")
    ensures forall f :: !Defines(Flattened(control, config).value, StageKey(idx, f))
  {
    forall f ensures !Defines(Flattened(control, config).value, StageKey(idx, f)) {
      StageParameter(control, config, idx, f);
    }
  }

  /** A scalar parameter that is assigned at all is assigned its source field. */
  lemma ScalarAssigned(control: Dict, config: Dict, b: ScalarBinding)
    requires b in ScalarBindings
    requires Assignments(control, config).Success?
    requires b.name == AFurnace ==> "A_furnace" in SectionOrEmpty(SectionOrEmpty(config, "fixed_parameters"), "geometry")
    ensures Param(b.name, ScalarSource(config, b)) in Assignments(control, config).value
  {
    AssignmentsValue(control, config);
    if b.group == "fixed_parameters" {
      FixedScalarValues(config);
    } else {
      InitialPartValues(config);
    }
  }

  /** Proof helper: the furnace area's binding and the mark of its name. */
  lemma AreaBinding()
    ensures AFurnace[4] == 'F'
    ensures ScalarBindings[4] == ScalarBinding(AFurnace, "fixed_parameters", "geometry", "A_furnace")
  {
  }

  /** Without an `A_furnace` key in the geometry section, no assignment names `EAF.Fixed.A_furnace`. */
  lemma AreaNotAssigned(control: Dict, config: Dict)
    requires Assignments(control, config).Success?
    requires "A_furnace" !in SectionOrEmpty(SectionOrEmpty(config, "fixed_parameters"), "geometry")
    ensures !Defines(Assignments(control, config).value, AFurnace)
  {
    AssignmentsValue(control, config);
    ControlPartNames(control);
    FixedNoArea(config);
    InitialPartNames(config);
    var a, b, c := ControlAssignments(control).value, FixedAssignments(config).value, InitialAssignments(config).value;
    var bs := Assignments(control, config).value;
    AreaBinding();
    forall i | 0 <= i < |bs| ensures bs[i].name != AFurnace {
      if i < |a| {
        assert bs[i] in a;
      } else if i < |a| + |b| {
        assert bs[i] in b;
      } else {
        assert bs[i] in c;
      }
    }
  }

  /**
   * Each scalar parameter is present exactly when its source field is
   * present and not None, and then holds that value.
   */
  lemma ScalarParameter(control: Dict, config: Dict, b: ScalarBinding)
    requires b in ScalarBindings
    requires Assignments(control, config).Success?
    ensures var ps := Flattened(control, config).value;
      var v := ScalarSource(config, b);
      && (Defines(ps, b.name) <==> v != JNull)
      && (v != JNull ==> Param(b.name, v) in ps)
  {
    var geo := SectionOrEmpty(SectionOrEmpty(config, "fixed_parameters"), "geometry");
    if b.name == AFurnace && "A_furnace" !in geo {
      AreaBindingUnique(b);
      AreaSourceNull(config);
      AreaAbsent(control, config);
    } else {
      ScalarAssigned(control, config, b);
      FlattenedItem(control, config, b.name, ScalarSource(config, b));
    }
  }

  /** Proof helper: without an `A_furnace` key, the area's source field reads as None. */
  lemma AreaSourceNull(config: Dict)
    requires "A_furnace" !in SectionOrEmpty(SectionOrEmpty(config, "fixed_parameters"), "geometry")
    ensures ScalarSource(config, ScalarBindings[4]) == JNull
  {
    AreaBinding();
  }

  /** Proof helper: the furnace area has one binding only. */
  lemma AreaBindingUnique(b: ScalarBinding)
    requires b in ScalarBindings && b.name == AFurnace
    ensures b == ScalarBindings[4]
  {
  }

  /** Without an `A_furnace` key in the geometry section, the flattened dict has no area either. */
  lemma AreaAbsent(control: Dict, config: Dict)
    requires Assignments(control, config).Success?
    requires "A_furnace" !in SectionOrEmpty(SectionOrEmpty(config, "fixed_parameters"), "geometry")
    ensures !Defines(Flattened(control, config).value, AFurnace)
  {
    FlattenedIsFiltered(control, config);
    AreaNotAssigned(control, config);
    var bs := Assignments(control, config).value;
    var ps := DropNulls(bs);
    forall i | 0 <= i < |ps| ensures ps[i].name != AFurnace {
      assert ps[i] in bs;
    }
  }

  /**
   * `EAF.Fixed.A_furnace` is present exactly when the geometry section has
   * the key with a value other than None.
   */
  lemma FurnaceArea(control: Dict, config: Dict)
    requires Assignments(control, config).Success?
    ensures var geo := SectionOrEmpty(SectionOrEmpty(config, "fixed_parameters"), "geometry");
      Defines(Flattened(control, config).value, AFurnace) <==> "A_furnace" in geo && geo["A_furnace"] != JNull
  {
    var b := ScalarBinding(AFurnace, "fixed_parameters", "geometry", "A_furnace");
    AreaBinding();
    ScalarParameter(control, config, b);
  }

  /**
   * Tap element k is present under `EAF.Fixed.Tap_Lookup_V[1,{k+1}]`
   * exactly when it is not None, and then holds that element.
   */
  lemma TapParameter(control: Dict, config: Dict)
    requires Assignments(control, config).Success?
    ensures TapSource(config).Success?
    ensures var ps := Flattened(control, config).value;
      var taps := TapSource(config).value;
      forall k :: 0 <= k < |taps| ==>
        && (Defines(ps, TapKey(k + 1)) <==> taps[k] != JNull)
        && (taps[k] != JNull ==> Param(TapKey(k + 1), taps[k]) in ps)
  {
    AssignmentsValue(control, config);
    FixedTapValues(config);
    var taps := TapSource(config).value;
    forall k | 0 <= k < |taps|
      ensures Defines(Flattened(control, config).value, TapKey(k + 1)) <==> taps[k] != JNull
      ensures taps[k] != JNull ==> Param(TapKey(k + 1), taps[k]) in Flattened(control, config).value
    {
      FlattenedItem(control, config, TapKey(k + 1), taps[k]);
    }
  }

  /** Every name in the flattened dict is a stage key, a scalar name or a tap key. */
  lemma NamesKnown(control: Dict, config: Dict)
    requires Assignments(control, config).Success?
    ensures TapSource(config).Success?
    ensures forall p :: p in Flattened(control, config).value ==> KnownName(p.name, |TapSource(config).value|)
  {
    FlattenedIsFiltered(control, config);
    AssignmentsValue(control, config);
    ControlPartNames(control);
    FixedPartNames(config);
    InitialPartNames(config);
    var bs := Assignments(control, config).value;
    forall p | p in Flattened(control, config).value ensures KnownName(p.name, |TapSource(config).value|) {
      assert p in bs;
      assert p in ControlAssignments(control).value
          || p in FixedAssignments(config).value
          || p in InitialAssignments(config).value;
    }
  }
}
