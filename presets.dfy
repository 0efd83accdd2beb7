/** Camera presets: the batches that apply a preset to, or check it against,
    every connected camera (`LoadInAllPreset`, `VerifyPreset`, lines
    149-218), and the name lookup the save dialog's upsert relies on (lines
    936-946). */
module Presets {
  import opened Wrappers
  import opened Devices

  /** `CameraPreset.Set` or `CameraPreset.Verify`. */
  datatype PresetAction = SetValues | VerifyValues

  /** What a batch shows and does, in order: the progress dialog opens with
      its maximum, and for each camera it reaches, the camera's name and the
      progress value are shown, the action is applied (and may throw, which
      is logged and passed over) and the batch pauses. */
  datatype BatchEvent =
    | Opened(maxValue: int)
    | Labeled(name: string)
    | Progressed(value: nat)
    | Applied(action: PresetAction, position: nat, fault: Option<string>)
    | Paused
    | Closed

  /** Lines 161-162: null and disconnected cameras are passed over. */
  predicate Reachable(d: CameraDevice?) {
    d != null && d.isConnected
  }

  /** How many of the first `n` cameras are reached: the counter `i`. */
  function Reached(ds: seq<CameraDevice?>, n: nat): nat
    requires n <= |ds|
  {
    if n == 0 then 0 else Reached(ds, n - 1) + (if Reachable(ds[n - 1]) then 1 else 0)
  }

  /** The iteration for the camera at position `p`, the counter being `k`. */
  function Visit(ds: seq<CameraDevice?>, act: PresetAction, faults: nat -> Option<string>, p: nat, k: nat): seq<BatchEvent>
    requires p < |ds|
  {
    if Reachable(ds[p]) then [Labeled(ds[p].displayName), Progressed(k), Applied(act, p, faults(p)), Paused]
    else []
  }

  /** The events of the first `n` iterations of the loop. */
  function Visits(ds: seq<CameraDevice?>, act: PresetAction, faults: nat -> Option<string>, n: nat): seq<BatchEvent>
    requires n <= |ds|
  {
    if n == 0 then [] else Visits(ds, act, faults, n - 1) + Visit(ds, act, faults, n - 1, Reached(ds, n - 1))
  }

  /** The whole batch for a non-null preset. `faults(p)` is the message of
      the exception the action throws on the camera at position `p`, if any. */
  function BatchTrace(ds: seq<CameraDevice?>, act: PresetAction, faults: nat -> Option<string>): seq<BatchEvent> {
    [Opened(|ds|)] + Visits(ds, act, faults, |ds|) + [Closed]
  }

  /** The progress values shown, in order. */
  function Progresses(t: seq<BatchEvent>): seq<nat> {
    if t == [] then [] else (if t[0].Progressed? then [t[0].value] else []) + Progresses(t[1..])
  }

  /** The number of pauses. */
  function Pauses(t: seq<BatchEvent>): nat {
    if t == [] then 0 else (if t[0] == Paused then 1 else 0) + Pauses(t[1..])
  }

  lemma {:induction false} ProgressesConcat(a: seq<BatchEvent>, b: seq<BatchEvent>)
    ensures Progresses(a + b) == Progresses(a) + Progresses(b)
    decreases |a|
  {
    if a == [] {
      assert a + b == b;
    } else {
      var ab := a + b;
      assert ab[0] == a[0] && ab[1..] == a[1..] + b;
      ProgressesConcat(a[1..], b);
    }
  }

  lemma {:induction false} PausesConcat(a: seq<BatchEvent>, b: seq<BatchEvent>)
    ensures Pauses(a + b) == Pauses(a) + Pauses(b)
    decreases |a|
  {
    if a == [] {
      assert a + b == b;
    } else {
      assert (a + b)[1..] == a[1..] + b;
      PausesConcat(a[1..], b);
    }
  }

  /** One iteration shows the progress value `k` and pauses once when the
      camera is reached, and shows and pauses nothing otherwise. */
  lemma VisitCounts(ds: seq<CameraDevice?>, act: PresetAction, faults: nat -> Option<string>, p: nat, k: nat)
    requires p < |ds|
    ensures Progresses(Visit(ds, act, faults, p, k)) == (if Reachable(ds[p]) then [k] else [])
    ensures Pauses(Visit(ds, act, faults, p, k)) == (if Reachable(ds[p]) then 1 else 0)
  {
    if Reachable(ds[p]) {
      var v3 := [Paused];
      var v2 := [Applied(act, p, faults(p))] + v3;
      var v1 := [Progressed(k)] + v2;
      var v0 := [Labeled(ds[p].displayName)] + v1;
      assert v0 == Visit(ds, act, faults, p, k);
      assert v3[1..] == [] && v2[1..] == v3 && v1[1..] == v2 && v0[1..] == v1;
      assert Progresses(v3) == [] && Pauses(v3) == 1;
      assert Progresses(v2) == [] && Pauses(v2) == 1;
      assert Progresses(v1) == [k] && Pauses(v1) == 1;
    }
  }

  /** The counting sequence 0, 1, ..., k - 1. */
  function UpTo(k: nat): (r: seq<nat>)
    ensures |r| == k && forall j :: 0 <= j < k ==> r[j] == j
  {
    seq(k, j requires 0 <= j => j)
  }

  lemma UpToStep(k: nat)
    ensures UpTo(k) + [k] == UpTo(k + 1) && UpTo(k) + [] == UpTo(k)
  {
  }

  /** The cameras reached show the progress values 0, 1, ... in turn. */
  lemma {:induction false} VisitsProgress(ds: seq<CameraDevice?>, act: PresetAction, faults: nat -> Option<string>, n: nat)
    requires n <= |ds|
    ensures Progresses(Visits(ds, act, faults, n)) == UpTo(Reached(ds, n))
    decreases n
  {
    if n > 0 {
      var k := Reached(ds, n - 1);
      var v := Visit(ds, act, faults, n - 1, k);
      var vs := Visits(ds, act, faults, n - 1);
      assert Visits(ds, act, faults, n) == vs + v;
      VisitsProgress(ds, act, faults, n - 1);
      ProgressesConcat(vs, v);
      VisitCounts(ds, act, faults, n - 1, k);
      UpToStep(k);
      if Reachable(ds[n - 1]) {
        assert Reached(ds, n) == k + 1;
      } else {
        assert Reached(ds, n) == k;
      }
    }
  }

  /** The batch pauses once per camera reached and no more. */
  lemma {:induction false} VisitsPauses(ds: seq<CameraDevice?>, act: PresetAction, faults: nat -> Option<string>, n: nat)
    requires n <= |ds|
    ensures Pauses(Visits(ds, act, faults, n)) == Reached(ds, n)
    decreases n
  {
    if n > 0 {
      var k := Reached(ds, n - 1);
      var v := Visit(ds, act, faults, n - 1, k);
      var vs := Visits(ds, act, faults, n - 1);
      assert Visits(ds, act, faults, n) == vs + v;
      VisitsPauses(ds, act, faults, n - 1);
      PausesConcat(vs, v);
      VisitCounts(ds, act, faults, n - 1, k);
    }
  }

  lemma BatchCounts(ds: seq<CameraDevice?>, act: PresetAction, faults: nat -> Option<string>)
    ensures var t := BatchTrace(ds, act, faults);
      t[0] == Opened(|ds|) &&
      Progresses(t) == UpTo(Reached(ds, |ds|)) && Pauses(t) == Reached(ds, |ds|)
  {
    var v := Visits(ds, act, faults, |ds|);
    VisitsProgress(ds, act, faults, |ds|);
    VisitsPauses(ds, act, faults, |ds|);
    ProgressesConcat([Opened(|ds|)], v);
    ProgressesConcat([Opened(|ds|)] + v, [Closed]);
    PausesConcat([Opened(|ds|)], v);
    PausesConcat([Opened(|ds|)] + v, [Closed]);
  }

  /** The action is applied to a camera exactly when it is reached, with the
      outcome of that camera's own call: a fault on one camera stops neither
      the cameras after it nor the others' outcomes. */
  lemma {:induction false} VisitsApply(ds: seq<CameraDevice?>, act: PresetAction, faults: nat -> Option<string>,
                                      n: nat, a: PresetAction, p: nat, f: Option<string>)
    requires n <= |ds|
    ensures Applied(a, p, f) in Visits(ds, act, faults, n) <==>
      p < n && Reachable(ds[p]) && a == act && f == faults(p)
    decreases n
  {
    if n > 0 {
      VisitsApply(ds, act, faults, n - 1, a, p, f);
    }
  }

  lemma BatchApplies(ds: seq<CameraDevice?>, act: PresetAction, faults: nat -> Option<string>,
                     a: PresetAction, p: nat, f: Option<string>)
    ensures Applied(a, p, f) in BatchTrace(ds, act, faults) <==>
      p < |ds| && Reachable(ds[p]) && a == act && f == faults(p)
  {
    VisitsApply(ds, act, faults, |ds|, a, p, f);
  }

  /** The names of the presets, in order. */
  function Names(ps: seq<CameraPreset>): (r: seq<string>)
    ensures |r| == |ps| && forall i :: 0 <= i < |ps| ==> r[i] == ps[i].name
  {
    seq(|ps|, i requires 0 <= i < |ps| => ps[i].name)
  }

  /** The position of the first preset with this name, or -1: the preset
      the `foreach ... break` of line 939 stops at. */
  function FirstIndex<T(==)>(names: seq<T>, name: T): (r: int)
    ensures -1 <= r < |names|
    ensures r >= 0 ==> names[r] == name && forall j :: 0 <= j < r ==> names[j] != name
    ensures r < 0 <==> name !in names
    decreases |names|
  {
    if names == [] then -1
    else if names[0] == name then 0
    else
      var r := FirstIndex(names[1..], name);
      assert names[1..] == names[1..] && (name in names <==> name in names[1..]);
      if r < 0 then -1 else r + 1
  }

  /** The names after saving under `name`: unchanged when a preset has that
      name, which is then updated, and with `name` added otherwise. */
  function UpsertNames(names: seq<string>, name: string): seq<string> {
    if name in names then names else names + [name]
  }

  predicate Distinct(names: seq<string>) {
    forall i, j :: 0 <= i < j < |names| ==> names[i] != names[j]
  }

  /** Saving never introduces a second preset with the same name, and the
      name is present afterwards. */
  lemma UpsertKeepsNamesDistinct(names: seq<string>, name: string)
    requires Distinct(names)
    ensures Distinct(UpsertNames(names, name)) && name in UpsertNames(names, name)
  {
    if name !in names {
      var r := names + [name];
      forall i, j | 0 <= i < j < |r| ensures r[i] != r[j] {
        if j == |names| { assert r[i] == names[i]; }
      }
    }
  }
}
