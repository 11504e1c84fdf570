/**
 * The relations engine (software/cs/gui/epg_board/RelationsEngine.py): when
 * engineering values change, it re-evaluates the spec's relations whose
 * triggers changed and writes their targets back in one batch.
 *
 * Formulas are evaluated by Python's `eval`; here `eval` is a parameter that
 * either yields a value or fails (the exception the source catches and
 * prints). The environment it receives holds each control's value under its
 * name; the `clamp` entry is the evaluator's own knowledge.
 */
module RelationsEngine {
  import opened Wrappers
  import opened PyValue
  import SL = SpecLoader
  import CS = EpgControlState

  function Max(a: real, b: real): real { if a >= b then a else b }
  function Min(a: real, b: real): real { if a <= b then a else b }

  /** `clamp(x, low, high) = max(low, min(high, x))`. */
  function Clamp(x: real, low: real, high: real): (r: real)
    ensures low <= high ==> low <= r <= high
    ensures low <= x <= high ==> r == x
    ensures low > high ==> r == low
    ensures x < low ==> r == low
    ensures low <= high < x ==> r == high
  {
    Max(low, Min(high, x))
  }

  /** The evaluation environment: control names to values. */
  type Env = map<string, Value>

  /** `eval(formula, env)`: a value, or None for a formula that raises. */
  type Evaluator = (string, Env) -> Option<Value>

  /** `make_env()`: every control of the spec under its name, with its current value. */
  function MakeEnv(spec: SL.EPGSettingsSpec, values: CS.Values): (env: Env)
    ensures forall k :: k in spec.engineeringControls ==> SL.KeyName(k) in env && env[SL.KeyName(k)] == CS.Current(values, k)
  {
    NamesInjective();
    map k | k in spec.engineeringControls :: SL.KeyName(k) := CS.Current(values, k)
  }

  lemma NamesInjective()
    ensures forall a: SL.ControlKey, b: SL.ControlKey :: SL.KeyName(a) == SL.KeyName(b) ==> a == b
  {
    forall a: SL.ControlKey, b: SL.ControlKey | SL.KeyName(a) == SL.KeyName(b)
      ensures a == b
    {
      SL.KeyNameRoundTrip(a);
      SL.KeyNameRoundTrip(b);
    }
  }

  /** `any(t in changed for t in rel.triggers)`. */
  predicate Triggered(rel: SL.ControlRelation, changed: set<SL.ControlKey>)
  {
    exists i :: 0 <= i < |rel.triggers| && rel.triggers[i] in changed
  }

  /** `pending`: the relations with a changed trigger, in spec order. */
  function Pending(rels: seq<SL.ControlRelation>, changed: set<SL.ControlKey>): (p: seq<SL.ControlRelation>)
    ensures forall r :: r in p ==> r in rels && Triggered(r, changed)
    ensures forall r :: r in rels && Triggered(r, changed) ==> r in p
    ensures (forall r :: r in rels ==> !Triggered(r, changed)) ==> p == []
  {
    if |rels| == 0 then []
    else (if Triggered(rels[0], changed) then [rels[0]] else []) + Pending(rels[1..], changed)
  }

  /** One target: a failing formula is skipped; a value is staged and made visible to the relation's later targets. */
  function TargetStep(eval: Evaluator, acc: (Env, CS.Updates), tf: SL.TargetFormula): (Env, CS.Updates)
  {
    match eval(tf.formula, acc.0)
    case None => acc
    case Some(val) => (acc.0[SL.KeyName(tf.key) := val], CS.Assign(acc.1, tf.key, val))
  }

  /** The inner loop over one relation's targets. */
  function RunTargets(eval: Evaluator, env: Env, ups: CS.Updates, targets: seq<SL.TargetFormula>): (Env, CS.Updates)
    decreases |targets|
  {
    if |targets| == 0 then (env, ups)
    else TargetStep(eval, RunTargets(eval, env, ups, targets[..|targets| - 1]), targets[|targets| - 1])
  }

  /** The outer loop: each relation starts from a fresh environment built from the state, not from what earlier relations staged. */
  function Staged(eval: Evaluator, env: Env, rels: seq<SL.ControlRelation>): CS.Updates
    decreases |rels|
  {
    if |rels| == 0 then []
    else RunTargets(eval, env, Staged(eval, env, rels[..|rels| - 1]), rels[|rels| - 1].targets).1
  }

  /** Running targets one after the other is running them all. */
  lemma {:induction false} RunTargetsAppend(eval: Evaluator, env: Env, ups: CS.Updates, a: seq<SL.TargetFormula>, b: seq<SL.TargetFormula>)
    ensures RunTargets(eval, env, ups, a + b) == RunTargets(eval, RunTargets(eval, env, ups, a).0, RunTargets(eval, env, ups, a).1, b)
    decreases |b|
  {
    if |b| == 0 {
      assert a + b == a;
    } else {
      var n := |b| - 1;
      RunTargetsAppend(eval, env, ups, a, b[..n]);
      assert (a + b)[..|a + b| - 1] == a + b[..n];
    }
  }

  /** A target whose formula fails is skipped and nothing else is affected: the result is that of the other targets alone. */
  lemma FailingTargetSkipped(eval: Evaluator, env: Env, ups: CS.Updates, targets: seq<SL.TargetFormula>, j: nat)
    requires j < |targets|
    requires eval(targets[j].formula, RunTargets(eval, env, ups, targets[..j]).0).None?
    ensures RunTargets(eval, env, ups, targets) == RunTargets(eval, env, ups, targets[..j] + targets[j + 1..])
  {
    var pre := RunTargets(eval, env, ups, targets[..j]);
    assert targets[..j + 1][..j] == targets[..j];
    assert RunTargets(eval, env, ups, targets[..j + 1]) == pre;
    assert targets == targets[..j + 1] + targets[j + 1..];
    RunTargetsAppend(eval, env, ups, targets[..j + 1], targets[j + 1..]);
    RunTargetsAppend(eval, env, ups, targets[..j], targets[j + 1..]);
  }

  /**
   * What one relation does, against what it would do on its own (`own`, run
   * from no staged updates): the keys it stages take its values, and the others
   * keep what earlier relations staged; its environment shows its own values
   * and otherwise the state's, never an earlier relation's.
   */
  lemma {:induction false} RelationEffect(eval: Evaluator, env: Env, ups: CS.Updates, targets: seq<SL.TargetFormula>)
    ensures var r := RunTargets(eval, env, ups, targets);
      var own := RunTargets(eval, env, [], targets);
      && r.0 == own.0
      && (forall k :: CS.Lookup(r.1, k) == (if CS.Lookup(own.1, k).Some? then CS.Lookup(own.1, k) else CS.Lookup(ups, k)))
      && (forall k :: CS.Lookup(own.1, k).Some? ==> SL.KeyName(k) in r.0 && r.0[SL.KeyName(k)] == CS.Lookup(own.1, k).value)
      && (forall k :: CS.Lookup(own.1, k).None? ==>
            ((SL.KeyName(k) in r.0 <==> SL.KeyName(k) in env)
             && (SL.KeyName(k) in env ==> r.0[SL.KeyName(k)] == env[SL.KeyName(k)])))
    decreases |targets|
  {
    if |targets| > 0 {
      var n := |targets| - 1;
      RelationEffect(eval, env, ups, targets[..n]);
      NamesInjective();
    }
  }

  /** A key staged by a later relation takes that relation's value: the later write wins. */
  lemma LaterWriteWins(eval: Evaluator, env: Env, rels: seq<SL.ControlRelation>, k: SL.ControlKey)
    requires |rels| > 0
    ensures var own := RunTargets(eval, env, [], rels[|rels| - 1].targets).1;
      CS.Lookup(Staged(eval, env, rels), k)
      == (if CS.Lookup(own, k).Some? then CS.Lookup(own, k) else CS.Lookup(Staged(eval, env, rels[..|rels| - 1]), k))
  {
    RelationEffect(eval, env, Staged(eval, env, rels[..|rels| - 1]), rels[|rels| - 1].targets);
  }

  // ---------------------------------------------------------------------------
  // The object

  class Engine {
    const spec: SL.EPGSettingsSpec
    const state: CS.ControlState
    const eval: Evaluator
    var applying: bool

    predicate Valid()
      reads this, state
    {
      state.Valid() && state.spec == spec
    }

    constructor (spec: SL.EPGSettingsSpec, state: CS.ControlState, eval: Evaluator)
      requires state.Valid() && state.spec == spec
      ensures Valid() && this.state == state && this.eval == eval && !applying
    {
      this.spec := spec;
      this.state := state;
      this.eval := eval;
      applying := false;
    }

    /** The relations' batch for a set of changed keys, from the state as it is. */
    function Updates(changed: set<SL.ControlKey>): CS.Updates
      reads this, state
    {
      Staged(eval, MakeEnv(spec, state.values), Pending(spec.engineeringRelations, changed))
    }

    /** `_on_changed`: ignored while the engine is applying, otherwise the relations of that key run. */
    method OnChanged(key: SL.ControlKey) returns (err: Option<Exception>)
      requires Valid()
      modifies this, state
      ensures Valid() && applying == old(applying)
      ensures old(applying) ==> state.values == old(state.values) && state.events == old(state.events) && err == None
      ensures !old(applying) ==> Applied({key}, old(state.values), old(state.events), old(Updates({key})), err)
      decreases if applying then 0 else 2, 0
    {
      if applying {
        return None;
      }
      err := ApplyRelations({key});
    }

    /** `_on_batch`: the same for the keys of a batch. */
    method OnBatch(changes: CS.Updates) returns (err: Option<Exception>)
      requires Valid()
      modifies this, state
      ensures Valid() && applying == old(applying)
      ensures old(applying) ==> state.values == old(state.values) && state.events == old(state.events) && err == None
      ensures !old(applying) ==> Applied(KeysOf(changes), old(state.values), old(state.events), old(Updates(KeysOf(changes))), err)
      decreases if applying then 0 else 2, 0
    {
      if applying {
        return None;
      }
      err := ApplyRelations(KeysOf(changes));
    }

    /** What `apply_relations` leaves behind: nothing when no update was staged, else the outcome of one `set_batch` of the staged updates. */
    ghost predicate Applied(changed: set<SL.ControlKey>, before: CS.Values, eventsBefore: seq<CS.Event>, ups: CS.Updates, err: Option<Exception>)
      reads this, state
    {
      if ups == [] then state.values == before && state.events == eventsBefore && err == None
      else
        var o := CS.BatchOutcome(spec, state.py, before, ups);
        state.values == o.values && state.events == eventsBefore + o.emitted && err == o.error
    }

    /** The signals `set_batch` emitted reach this engine's slots while `_applying` is set, so they change nothing. */
    method Deliver(events: seq<CS.Event>)
      requires Valid() && applying
      modifies this, state
      ensures Valid() && applying
      ensures state.values == old(state.values) && state.events == old(state.events)
      decreases 0, 1
    {
      var i := 0;
      while i < |events|
        invariant 0 <= i <= |events| && Valid() && applying
        invariant state.values == old(state.values) && state.events == old(state.events)
      {
        var ignored: Option<Exception>;
        match events[i] {
          case Changed(k, _, _) => ignored := OnChanged(k);
          case Batch(changes) => ignored := OnBatch(changes);
        }
        i := i + 1;
      }
    }

    /** The staging loops of `apply_relations`: for each pending relation, a fresh environment and its targets in order. */
    method Stage(changed: set<SL.ControlKey>) returns (updates: CS.Updates)
      requires Valid()
      ensures updates == Updates(changed)
    {
      var pending := Pending(spec.engineeringRelations, changed);
      ghost var env0 := MakeEnv(spec, state.values);
      updates := [];
      var i := 0;
      while i < |pending|
        invariant 0 <= i <= |pending| && updates == Staged(eval, env0, pending[..i])
      {
        assert pending[..i + 1][..i] == pending[..i];
        var env := MakeEnv(spec, state.values);
        updates := RunRelation(env, updates, pending[i].targets);
        i := i + 1;
      }
      assert pending[..i] == pending;
    }

    /** The inner loop over one relation's targets. */
    method RunRelation(env0: Env, before: CS.Updates, targets: seq<SL.TargetFormula>) returns (updates: CS.Updates)
      ensures updates == RunTargets(eval, env0, before, targets).1
    {
      var env := env0;
      updates := before;
      var j := 0;
      while j < |targets|
        invariant 0 <= j <= |targets| && (env, updates) == RunTargets(eval, env0, before, targets[..j])
      {
        assert targets[..j + 1][..j] == targets[..j];
        var tf := targets[j];
        var val := eval(tf.formula, env);
        if val.Some? {
          updates := CS.Assign(updates, tf.key, val.value);
          env := env[SL.KeyName(tf.key) := val.value];
        }
        j := j + 1;
      }
      assert targets[..j] == targets;
    }

    /** `apply_relations(changed)`: stage, then one `set_batch` with `_applying` set around it. */
    method ApplyRelations(changed: set<SL.ControlKey>) returns (err: Option<Exception>)
      requires Valid() && !applying
      modifies this, state
      ensures Valid() && !applying
      ensures Applied(changed, old(state.values), old(state.events), old(Updates(changed)), err)
      decreases 1, 0
    {
      var updates := Stage(changed);
      if updates == [] {
        return None;
      }
      var eventsBefore := state.events;
      applying := true;
      err := state.SetBatch(updates);
      if err == None {
        Deliver(state.events[|eventsBefore|..]);
      }
      applying := false;
    }
  }

  /** The keys of a batch dict. */
  function KeysOf(changes: CS.Updates): (ks: set<SL.ControlKey>)
    ensures forall k :: k in ks <==> exists i :: 0 <= i < |changes| && changes[i].0 == k
  {
    set i | 0 <= i < |changes| :: changes[i].0
  }
}
