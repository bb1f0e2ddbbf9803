/**
 * `get_vr`: finding a variable of the FMU's model description by name.
 * An exact match wins; failing that, names are compared after turning
 * every `.` into `_` and deleting every space, and the first variable whose
 * normalised name matches is taken.
 */
module Resolver {
  import opened Wrappers

  /** The declared type of a model variable, as the model description spells it. */
  datatype VarType = Real | Integer | Boolean | String | Enumeration

  /** A value reference: the handle the FMU interface addresses a variable by. */
  type Handle = nat

  /** One entry of the model description's variable list. */
  datatype Variable = Variable(name: string, handle: Handle, vtype: VarType)

  /** What a successful lookup returns: the value reference and the declared type. */
  datatype Resolved = Resolved(handle: Handle, vtype: VarType)

  // ----- Name normalisation -----

  /** `s.replace(a, b)` for single characters. */
  function ReplaceChar(s: string, a: char, b: char): (r: string)
    ensures |r| == |s|
    ensures forall i :: 0 <= i < |s| ==> r[i] == (if s[i] == a then b else s[i])
  {
    if s == [] then []
    else [if s[0] == a then b else s[0]] + ReplaceChar(s[1..], a, b)
  }

  /** `s.replace(c, '')` for a single character. */
  function RemoveChar(s: string, c: char): (r: string)
    ensures |r| <= |s|
    ensures forall x :: x in r <==> x in s && x != c
  {
    if s == [] then []
    else if s[0] == c then RemoveChar(s[1..], c)
    else [s[0]] + RemoveChar(s[1..], c)
  }

  /** `name.replace('.', '_').replace(' ', '')`. */
  function Normalize(s: string): (r: string)
    ensures '.' !in r && ' ' !in r
    ensures |r| <= |s|
  {
    RemoveChar(ReplaceChar(s, '.', '_'), ' ')
  }

  /** `replace` works character by character: it distributes over concatenation. */
  lemma {:induction false} ReplaceAppend(s: string, t: string, a: char, b: char)
    ensures ReplaceChar(s + t, a, b) == ReplaceChar(s, a, b) + ReplaceChar(t, a, b)
  {
    if s == [] {
      assert s + t == t;
    } else {
      assert (s + t)[0] == s[0];
      assert (s + t)[1..] == s[1..] + t;
      ReplaceAppend(s[1..], t, a, b);
    }
  }

  /**
   * Deleting a character keeps the others in their order and number: the
   * deletion distributes over concatenation, and on one character it
   * deletes that character or keeps it.
   */
  lemma {:induction false} RemoveAppend(s: string, t: string, c: char)
    ensures RemoveChar(s + t, c) == RemoveChar(s, c) + RemoveChar(t, c)
    ensures |s| == 1 ==> RemoveChar(s, c) == if s[0] == c then [] else s
  {
    if s == [] {
      assert s + t == t;
    } else {
      assert (s + t)[0] == s[0];
      assert (s + t)[1..] == s[1..] + t;
      RemoveAppend(s[1..], t, c);
      if |s| == 1 {
        assert s[1..] == [];
      }
    }
  }

  /**
   * Normalising works character by character, keeping order: `.` becomes
   * `_`, a space is dropped and every other character stays.
   */
  lemma NormalizeAppend(s: string, t: string)
    ensures Normalize(s + t) == Normalize(s) + Normalize(t)
  {
    ReplaceAppend(s, t, '.', '_');
    RemoveAppend(ReplaceChar(s, '.', '_'), ReplaceChar(t, '.', '_'), ' ');
  }

  lemma NormalizeChar(x: char)
    ensures Normalize([x]) == if x == '.' then "_" else if x == ' ' then "" else [x]
  {
    var r := ReplaceChar([x], '.', '_');
    assert r == [if x == '.' then '_' else x];
    RemoveAppend(r, [], ' ');
  }

  lemma {:induction false} ReplaceAbsent(s: string, a: char, b: char)
    requires a !in s
    ensures ReplaceChar(s, a, b) == s
  {
    if s != [] {
      assert s[0] != a;
      assert a !in s[1..] by {
        forall i | 0 <= i < |s[1..]| ensures s[1..][i] != a {
          assert s[1..][i] == s[i + 1];
        }
      }
      ReplaceAbsent(s[1..], a, b);
    }
  }

  lemma {:induction false} RemoveAbsent(s: string, c: char)
    requires c !in s
    ensures RemoveChar(s, c) == s
  {
    if s != [] {
      assert s[0] != c;
      assert c !in s[1..] by {
        forall i | 0 <= i < |s[1..]| ensures s[1..][i] != c {
          assert s[1..][i] == s[i + 1];
        }
      }
      RemoveAbsent(s[1..], c);
    }
  }

  /** Normalising a normalised name changes nothing. */
  lemma NormalizeIdempotent(s: string)
    ensures Normalize(Normalize(s)) == Normalize(s)
  {
    var n := Normalize(s);
    ReplaceAbsent(n, '.', '_');
    RemoveAbsent(n, ' ');
  }

  /** Replacing `.` by `_` twice is replacing it once. */
  lemma ReplaceTwice(s: string)
    ensures ReplaceChar(ReplaceChar(s, '.', '_'), '.', '_') == ReplaceChar(s, '.', '_')
  {
    var r := ReplaceChar(s, '.', '_');
    assert '.' !in r by {
      forall i | 0 <= i < |r| ensures r[i] != '.' {
      }
    }
    ReplaceAbsent(r, '.', '_');
  }

  /**
   * A dotted name and its underscore spelling normalise alike, which is how
   * `EAF_State_T_liq` finds the variable `EAF.State.T_liq`.
   */
  lemma DotsMatchUnderscores(s: string)
    ensures Normalize(ReplaceChar(s, '.', '_')) == Normalize(s)
  {
    ReplaceTwice(s);
  }

  // ----- The two scans -----

  /** The index of the first variable named exactly `name`. */
  function FindExact(vars: seq<Variable>, name: string): (r: Option<nat>)
    ensures r.Some? ==> r.value < |vars| && vars[r.value].name == name
                        && forall j :: 0 <= j < r.value ==> vars[j].name != name
    ensures r.None? ==> forall j :: 0 <= j < |vars| ==> vars[j].name != name
  {
    if vars == [] then None
    else if vars[0].name == name then Some(0)
    else match FindExact(vars[1..], name)
      case None => None
      case Some(i) => Some(i + 1)
  }

  /** The index of the first variable whose normalised name is `target`. */
  function FindNormalized(vars: seq<Variable>, target: string): (r: Option<nat>)
    ensures r.Some? ==> r.value < |vars| && Normalize(vars[r.value].name) == target
                        && forall j :: 0 <= j < r.value ==> Normalize(vars[j].name) != target
    ensures r.None? ==> forall j :: 0 <= j < |vars| ==> Normalize(vars[j].name) != target
  {
    if vars == [] then None
    else if Normalize(vars[0].name) == target then Some(0)
    else match FindNormalized(vars[1..], target)
      case None => None
      case Some(i) => Some(i + 1)
  }

  /** What resolving to the variable at index `i` yields. */
  function At(vars: seq<Variable>, i: nat): Resolved
    requires i < |vars|
  {
    Resolved(vars[i].handle, vars[i].vtype)
  }

  /** `get_vr(model_description, name)`; `None` stands for the pair `(None, None)`. */
  function GetVr(vars: seq<Variable>, name: string): Option<Resolved> {
    match FindExact(vars, name)
    case Some(i) => Some(At(vars, i))
    case None =>
      match FindNormalized(vars, Normalize(name))
      case Some(i) => Some(At(vars, i))
      case None => None
  }

  // ----- What the lookup promises -----

  /** The first variable named exactly `name` is the one returned, whatever matches after normalising. */
  lemma ExactFirst(vars: seq<Variable>, name: string, i: nat)
    requires i < |vars| && vars[i].name == name
    requires forall j :: 0 <= j < i ==> vars[j].name != name
    ensures GetVr(vars, name) == Some(At(vars, i))
  {
  }

  /** With no exact match, the first variable whose normalised name matches is returned. */
  lemma NormalizedFallback(vars: seq<Variable>, name: string, i: nat)
    requires forall j :: 0 <= j < |vars| ==> vars[j].name != name
    requires i < |vars| && Normalize(vars[i].name) == Normalize(name)
    requires forall j :: 0 <= j < i ==> Normalize(vars[j].name) != Normalize(name)
    ensures GetVr(vars, name) == Some(At(vars, i))
  {
  }

  /** A lookup that succeeds returns a variable whose name matches at least after normalising. */
  lemma ResolvedMatches(vars: seq<Variable>, name: string)
    requires GetVr(vars, name).Some?
    ensures exists i :: 0 <= i < |vars| && GetVr(vars, name).value == At(vars, i)
                        && Normalize(vars[i].name) == Normalize(name)
  {
    match FindExact(vars, name)
    case Some(i) =>
      assert Normalize(vars[i].name) == Normalize(name);
    case None =>
      var i := FindNormalized(vars, Normalize(name)).value;
      assert GetVr(vars, name).value == At(vars, i);
  }

  /** The lookup fails exactly when no variable's name matches even after normalising. */
  lemma NotFound(vars: seq<Variable>, name: string)
    ensures GetVr(vars, name).None? <==> forall j :: 0 <= j < |vars| ==> Normalize(vars[j].name) != Normalize(name)
  {
    if FindExact(vars, name).Some? {
      var i := FindExact(vars, name).value;
      assert Normalize(vars[i].name) == Normalize(name);
    }
  }

  /**
   * Both spellings present: `EAF.Fixed.R_sys` resolves to its own variable,
   * not to the earlier `EAF_Fixed_R_sys` that matches it after normalising.
   */
  lemma ExactBeatsEarlierNormalized()
    ensures var vars := [Variable("EAF_Fixed_R_sys", 1, Real), Variable("EAF.Fixed.R_sys", 2, Real)];
      GetVr(vars, "EAF.Fixed.R_sys") == Some(Resolved(2, Real))
  {
    var vars := [Variable("EAF_Fixed_R_sys", 1, Real), Variable("EAF.Fixed.R_sys", 2, Real)];
    ExactFirst(vars, "EAF.Fixed.R_sys", 1);
  }
}
