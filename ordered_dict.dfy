/**
 * A Python dict from parameter names to configuration values, as the list of
 * its items in insertion order.  `start_values[k] = v` is `Assign`; a run of
 * such assignments is `Apply`; the closing comprehension that keeps the items
 * whose value is not None is `DropNulls`.
 */
module OrderedDict {
  import opened ConfigTree

  datatype Param = Param(name: string, value: Value)

  /** `k in d` for the dict whose items are `d`. */
  predicate Defines(d: seq<Param>, k: string) {
    exists i :: 0 <= i < |d| && d[i].name == k
  }

  /** No name occurs twice: what every dict's item list satisfies. */
  predicate UniqueNames(d: seq<Param>) {
    forall i, j :: 0 <= i < j < |d| ==> d[i].name != d[j].name
  }

  /**
   * `d[k] = v`: a new key is appended after the existing items; an existing
   * key keeps its position and takes the new value.
   */
  function Assign(d: seq<Param>, k: string, v: Value): (r: seq<Param>)
    ensures !Defines(d, k) ==> r == d + [Param(k, v)]
    ensures Defines(d, k) ==> |r| == |d|
    ensures UniqueNames(d) && Defines(d, k) ==>
      forall i :: 0 <= i < |d| ==> r[i] == if d[i].name == k then Param(k, v) else d[i]
    ensures UniqueNames(d) ==> UniqueNames(r)
  {
    if d == [] then [Param(k, v)]
    else if d[0].name == k then
      assert Defines(d, k);
      assert UniqueNames(d) ==> UniqueNames([Param(k, v)] + d[1..]) by {
        if UniqueNames(d) {
          forall q | q in d[1..] ensures q.name != k {
            var i :| 0 <= i < |d| - 1 && d[1..][i] == q;
            assert d[i + 1] == q;
          }
          PrependUnique(Param(k, v), d[1..]);
        }
      }
      [Param(k, v)] + d[1..]
    else
      DefinesTail(d, k);
      var rest := Assign(d[1..], k, v);
      assert !Defines(d, k) ==> [d[0]] + rest == d + [Param(k, v)] by {
        if !Defines(d, k) {
          assert d == [d[0]] + d[1..];
        }
      }
      assert UniqueNames(d) ==> UniqueNames([d[0]] + rest) by {
        if UniqueNames(d) {
          ConsUnique(d, k, v, rest);
        }
      }
      [d[0]] + rest
  }

  /**
   * Proof helper: an item whose name is not `k` stays unique in front of
   * the rest of the dict after `k` is assigned there.
   */
  lemma ConsUnique(d: seq<Param>, k: string, v: Value, rest: seq<Param>)
    requires d != [] && d[0].name != k && UniqueNames(d)
    requires || rest == d[1..] + [Param(k, v)]
             || (|rest| == |d| - 1 && forall i :: 0 <= i < |rest| ==> rest[i] == if d[i + 1].name == k then Param(k, v) else d[i + 1])
    requires UniqueNames(rest)
    ensures UniqueNames([d[0]] + rest)
  {
    forall j | 0 <= j < |rest| ensures rest[j].name != d[0].name {
      if j < |d| - 1 {
        assert rest[j] == d[j + 1] || rest[j].name == k;
      }
    }
    PrependUnique(d[0], rest);
  }

  /** Proof helper: an item whose name is not in `rest` keeps the names unique in front of it. */
  lemma PrependUnique(p: Param, rest: seq<Param>)
    requires UniqueNames(rest)
    requires forall q :: q in rest ==> q.name != p.name
    ensures UniqueNames([p] + rest)
  {
    var r := [p] + rest;
    forall i, j | 0 <= i < j < |r| ensures r[i].name != r[j].name {
      if i == 0 {
        assert r[j] == rest[j - 1];
      } else {
        assert r[i] == rest[i - 1] && r[j] == rest[j - 1];
      }
    }
  }

  /** Past a first item with another name, `k` is defined exactly when the rest defines it. */
  lemma DefinesTail(d: seq<Param>, k: string)
    requires d != [] && d[0].name != k
    ensures Defines(d, k) <==> Defines(d[1..], k)
  {
    if Defines(d, k) {
      var i :| 0 <= i < |d| && d[i].name == k;
      assert d[1..][i - 1].name == k;
    }
    if Defines(d[1..], k) {
      var i :| 0 <= i < |d| - 1 && d[1..][i].name == k;
      assert d[i + 1].name == k;
    }
  }

  /** The assignments `bs`, in order, performed on the dict `d`. */
  function Apply(d: seq<Param>, bs: seq<Param>): (r: seq<Param>)
    ensures UniqueNames(d) ==> UniqueNames(r)
    decreases |bs|
  {
    if bs == [] then d
    else
      var last := bs[|bs| - 1];
      Assign(Apply(d, bs[..|bs| - 1]), last.name, last.value)
  }

  /** Performing `xs` and then `ys` is performing `xs + ys`. */
  lemma {:induction false} ApplyAppend(d: seq<Param>, xs: seq<Param>, ys: seq<Param>)
    ensures Apply(d, xs + ys) == Apply(Apply(d, xs), ys)
    decreases |ys|
  {
    if ys != [] {
      var front := ys[..|ys| - 1];
      assert (xs + ys)[..|xs + ys| - 1] == xs + front;
      assert (xs + ys)[|xs + ys| - 1] == ys[|ys| - 1];
      ApplyAppend(d, xs, front);
    } else {
      assert xs + ys == xs;
    }
  }

  /**
   * Assignments to pairwise different keys, starting from the empty dict,
   * overwrite nothing: the dict holds exactly those items, in that order.
   */
  lemma {:induction false} ApplyWithoutOverwrite(bs: seq<Param>)
    requires UniqueNames(bs)
    ensures Apply([], bs) == bs
    decreases |bs|
  {
    if bs != [] {
      var front := bs[..|bs| - 1];
      var last := bs[|bs| - 1];
      ApplyWithoutOverwrite(front);
      assert !Defines(front, last.name);
      assert front + [last] == bs;
    }
  }

  /** `{k: v for k, v in d.items() if v is not None}`. */
  function DropNulls(d: seq<Param>): (r: seq<Param>)
    ensures forall p :: p in r <==> p in d && p.value != JNull
    ensures UniqueNames(d) ==> UniqueNames(r)
  {
    if d == [] then []
    else
      var rest := DropNulls(d[1..]);
      assert UniqueNames(d) ==> UniqueNames([d[0]] + rest) by {
        if UniqueNames(d) {
          forall p | p in rest ensures p.name != d[0].name {
            var i :| 0 <= i < |d| - 1 && d[1..][i] == p;
            assert d[i + 1] == p;
          }
          PrependUnique(d[0], rest);
        }
      }
      if d[0].value == JNull then rest else [d[0]] + rest
  }

  /** The filter keeps the surviving items in their order: it distributes over concatenation. */
  lemma {:induction false} DropNullsAppend(a: seq<Param>, b: seq<Param>)
    ensures DropNulls(a + b) == DropNulls(a) + DropNulls(b)
  {
    if a == [] {
      assert a + b == b;
    } else {
      assert (a + b)[0] == a[0];
      assert (a + b)[1..] == a[1..] + b;
      DropNullsAppend(a[1..], b);
    }
  }

  /** On one item the filter keeps it or drops it. */
  lemma DropNullsSingle(p: Param)
    ensures DropNulls([p]) == if p.value == JNull then [] else [p]
  {
    assert [p][1..] == [];
  }

  /**
   * After the filter, a key that the unique item list binds to `v` is present
   * exactly when `v` is not None, and then with that value.
   */
  lemma FilteredItem(d: seq<Param>, k: string, v: Value)
    requires UniqueNames(d) && Param(k, v) in d
    ensures Defines(DropNulls(d), k) <==> v != JNull
    ensures v != JNull ==> Param(k, v) in DropNulls(d)
  {
    var r := DropNulls(d);
    if Defines(r, k) {
      var i :| 0 <= i < |r| && r[i].name == k;
      assert r[i] in d;
      var a :| 0 <= a < |d| && d[a] == r[i];
      var b :| 0 <= b < |d| && d[b] == Param(k, v);
      assert a == b;
    }
    if v != JNull {
      assert Param(k, v) in r;
      var i :| 0 <= i < |r| && r[i] == Param(k, v);
      assert r[i].name == k;
    }
  }

  /** Performing `xs` and then `b`. */
  lemma ApplySnoc(d: seq<Param>, xs: seq<Param>, b: Param)
    ensures Apply(d, xs + [b]) == Assign(Apply(d, xs), b.name, b.value)
  {
    assert (xs + [b])[..|xs|] == xs;
  }

  /** Proof helper: `Apply` of one assignment, unfolded. */
  lemma ApplyUnfold1(d: seq<Param>, bs: seq<Param>)
    requires |bs| == 1
    ensures Apply(d, bs) == Assign(d, bs[0].name, bs[0].value)
  {
    assert bs[..0] == [];
  }

  /** Proof helper: `Apply` of two assignments, unfolded. */
  lemma ApplyUnfold2(d: seq<Param>, bs: seq<Param>)
    requires |bs| == 2
    ensures Apply(d, bs) == Assign(Assign(d, bs[0].name, bs[0].value), bs[1].name, bs[1].value)
  {
    ApplyUnfold1(d, bs[..1]);
  }

  /** Proof helper: `Apply` of four assignments, unfolded. */
  lemma ApplyUnfold4(d: seq<Param>, bs: seq<Param>)
    requires |bs| == 4
    ensures Apply(d, bs) ==
      Assign(Assign(Assign(Assign(d, bs[0].name, bs[0].value), bs[1].name, bs[1].value),
        bs[2].name, bs[2].value), bs[3].name, bs[3].value)
  {
    ApplyUnfold2(d, bs[..2]);
    assert bs[..3][..2] == bs[..2];
  }
}
