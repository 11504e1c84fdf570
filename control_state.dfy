/**
 * The ground-truth engineering values (software/cs/gui/epg_board/EPGControlState.py):
 * one value per engineering control of the loaded spec, written through the
 * control's declared type, with a `changed` signal for each value that
 * actually changes and a `batch` signal for a batch of them.
 *
 * Emitted signals are recorded in `events`; delivering them to connected
 * slots is the relations engine's part.
 */
module EpgControlState {
  import opened Wrappers
  import opened PyValue
  import SL = SpecLoader

  type Key = SL.ControlKey
  type Values = map<Key, Value>

  /** An insertion-ordered dictionary keyed by control, as Python's dict. */
  type Updates = seq<(Key, Value)>

  /** The `changed(key, old, new)` and `batch(dict)` signals. */
  datatype Event = Changed(key: Key, before: Value, after: Value) | Batch(changes: Updates)

  /** `self._values.get(key)`. */
  function Current(values: Values, k: Key): Value
  {
    if k in values then values[k] else PyNone
  }

  /** `d.get(k)` on an ordered dictionary. */
  function Lookup(d: Updates, k: Key): (r: Option<Value>)
    ensures r.Some? <==> exists i :: 0 <= i < |d| && d[i].0 == k
  {
    if |d| == 0 then None else if d[0].0 == k then Some(d[0].1) else Lookup(d[1..], k)
  }

  predicate UniqueKeys(d: Updates)
  {
    forall i, j :: 0 <= i < j < |d| ==> d[i].0 != d[j].0
  }

  /** `d[k] = v`: an existing key keeps its place, a new one goes last. */
  function Assign(d: Updates, k: Key, v: Value): (r: Updates)
    ensures Lookup(r, k) == Some(v)
    ensures forall j :: j != k ==> Lookup(r, j) == Lookup(d, j)
  {
    if |d| == 0 then [(k, v)]
    else if d[0].0 == k then [(k, v)] + d[1..]
    else [d[0]] + Assign(d[1..], k, v)
  }

  /** Assigning keeps a dictionary's keys distinct. */
  lemma {:induction false} AssignKeepsUnique(d: Updates, k: Key, v: Value)
    requires UniqueKeys(d)
    ensures UniqueKeys(Assign(d, k, v))
    decreases |d|
  {
    if |d| > 0 && d[0].0 != k {
      AssignKeepsUnique(d[1..], k, v);
      var t := Assign(d[1..], k, v);
      var r := Assign(d, k, v);
      assert r == [d[0]] + t;
      forall i | 1 <= i < |r|
        ensures r[i].0 != d[0].0
      {
        assert r[i] == t[i - 1];
        if t[i - 1].0 != k {
          assert Lookup(t, t[i - 1].0).Some?;
          assert Lookup(d[1..], t[i - 1].0).Some?;
          var j :| 0 <= j < |d[1..]| && d[1..][j].0 == t[i - 1].0;
          assert d[j + 1].0 == r[i].0;
        }
      }
    } else if |d| > 0 {
      var r := Assign(d, k, v);
      assert forall i :: 1 <= i < |r| ==> r[i] == d[i];
    }
  }

  /** What one call does: the new values, the signals it emits, and the exception it raises. */
  datatype Outcome = Outcome(values: Values, emitted: seq<Event>, error: Option<Exception>)

  /** `set(key, value)`. */
  function SetOutcome(spec: SL.EPGSettingsSpec, py: Builtins, values: Values, key: Key, value: Value): Outcome
  {
    if key !in spec.engineeringControls then Outcome(values, [], Some(KeyError))
    else
      match Coerce(spec.engineeringControls[key].pytype, value, py)
      case Err(_) => Outcome(values, [], Some(TypeError))
      case Ok(c) =>
        if Equal(Current(values, key), c) then Outcome(values, [], None)
        else Outcome(values[key := c], [Changed(key, Current(values, key), c)], None)
  }

  /**
   * `set` touches no key but its own; when it raises, nothing changes and nothing
   * is emitted; otherwise the key ends up holding the coerced value (or one equal
   * to it), and a signal is emitted exactly when the values change.
   */
  lemma SetChangesOnlyKey(spec: SL.EPGSettingsSpec, py: Builtins, values: Values, key: Key, value: Value)
    ensures var o := SetOutcome(spec, py, values, key, value);
      && (forall k :: k != key ==> Current(o.values, k) == Current(values, k))
      && (o.error.Some? ==> o.values == values && o.emitted == [])
      && (o.error == Some(TypeError) <==> key in spec.engineeringControls && Coerce(spec.engineeringControls[key].pytype, value, py).Err?)
      && (o.error.None? ==> Equal(Current(o.values, key), Coerce(spec.engineeringControls[key].pytype, value, py).value))
      && (o.emitted != [] <==> o.values != values)
  {
    var o := SetOutcome(spec, py, values, key, value);
    if key in spec.engineeringControls && Coerce(spec.engineeringControls[key].pytype, value, py).Ok? {
      var c := Coerce(spec.engineeringControls[key].pytype, value, py).value;
      EqualReflexive(c);
      if !Equal(Current(values, key), c) {
        assert Current(o.values, key) == c;
      }
    }
  }

  /** Setting the same value twice: the second call changes nothing and emits nothing. */
  lemma SetTwiceIsQuiet(spec: SL.EPGSettingsSpec, py: Builtins, values: Values, key: Key, value: Value)
    requires SetOutcome(spec, py, values, key, value).error.None?
    ensures var v1 := SetOutcome(spec, py, values, key, value).values;
      SetOutcome(spec, py, v1, key, value) == Outcome(v1, [], None)
  {
    var c := Coerce(spec.engineeringControls[key].pytype, value, py).value;
    EqualReflexive(c);
  }

  /** `set_batch`'s loop state: the values, the `changed` dict, and the exception that stopped it. */
  datatype BatchState = BatchState(values: Values, changed: Updates, error: Option<Exception>)

  /** One iteration of the `set_batch` loop. */
  function BatchStep(spec: SL.EPGSettingsSpec, py: Builtins, b: BatchState, u: (Key, Value)): BatchState
  {
    if u.0 !in spec.engineeringControls then b.(error := Some(KeyError))
    else
      match Coerce(spec.engineeringControls[u.0].pytype, u.1, py)
      case Err(_) => b.(error := Some(TypeError))
      case Ok(c) =>
        if Equal(Current(b.values, u.0), c) then b
        else BatchState(b.values[u.0 := c], Assign(b.changed, u.0, c), None)
  }

  /** The loop over `updates`, stopping at the first exception. */
  function BatchRun(spec: SL.EPGSettingsSpec, py: Builtins, values: Values, ups: Updates): BatchState
    decreases |ups|
  {
    if |ups| == 0 then BatchState(values, [], None)
    else
      var b := BatchRun(spec, py, values, ups[..|ups| - 1]);
      if b.error.Some? then b else BatchStep(spec, py, b, ups[|ups| - 1])
  }

  /** The signals after the loop: one `batch` of the changed keys, then `changed(k, None, v)` for each; nothing when none changed. */
  function BatchEvents(changed: Updates): (es: seq<Event>)
    ensures changed == [] <==> es == []
  {
    if |changed| == 0 then []
    else [Batch(changed)] + seq(|changed|, i requires 0 <= i < |changed| => Changed(changed[i].0, PyNone, changed[i].1))
  }

  /** Once an entry has failed, the later entries are never looked at. */
  lemma {:induction false} BatchStopsAtError(spec: SL.EPGSettingsSpec, py: Builtins, values: Values, ups: Updates, j: nat)
    requires j <= |ups| && BatchRun(spec, py, values, ups[..j]).error.Some?
    ensures BatchRun(spec, py, values, ups) == BatchRun(spec, py, values, ups[..j])
    decreases |ups|
  {
    if j < |ups| {
      var n := |ups| - 1;
      assert ups[..n][..j] == ups[..j];
      BatchStopsAtError(spec, py, values, ups[..n], j);
    } else {
      assert ups[..j] == ups;
    }
  }

  /** `set_batch(updates)`. */
  function BatchOutcome(spec: SL.EPGSettingsSpec, py: Builtins, values: Values, ups: Updates): Outcome
  {
    var b := BatchRun(spec, py, values, ups);
    Outcome(b.values, if b.error.None? then BatchEvents(b.changed) else [], b.error)
  }

  /**
   * No rollback: when an entry fails, the values are exactly those the entries
   * before it wrote, and nothing is emitted.
   */
  lemma {:induction false} BatchNoRollback(spec: SL.EPGSettingsSpec, py: Builtins, values: Values, ups: Updates)
    requires BatchRun(spec, py, values, ups).error.Some?
    ensures exists j :: (0 <= j < |ups|
      && BatchRun(spec, py, values, ups[..j]).error.None?
      && BatchStep(spec, py, BatchRun(spec, py, values, ups[..j]), ups[j]).error.Some?
      && BatchRun(spec, py, values, ups).values == BatchRun(spec, py, values, ups[..j]).values)
    ensures BatchOutcome(spec, py, values, ups).emitted == []
    decreases |ups|
  {
    var n := |ups| - 1;
    var b := BatchRun(spec, py, values, ups[..n]);
    if b.error.Some? {
      BatchNoRollback(spec, py, values, ups[..n]);
      var j :| 0 <= j < n
        && BatchRun(spec, py, values, ups[..n][..j]).error.None?
        && BatchStep(spec, py, BatchRun(spec, py, values, ups[..n][..j]), ups[..n][j]).error.Some?
        && b.values == BatchRun(spec, py, values, ups[..n][..j]).values;
      assert ups[..n][..j] == ups[..j];
    } else {
      assert ups[..n] == ups[..|ups| - 1];
    }
  }

  /**
   * A successful batch writes exactly the changed keys: each key ends up with
   * its value in `changed` if it has one, and keeps its old value otherwise;
   * `changed` holds each key once.
   */
  lemma {:induction false} BatchWritesChanged(spec: SL.EPGSettingsSpec, py: Builtins, values: Values, ups: Updates)
    requires BatchRun(spec, py, values, ups).error.None?
    ensures var b := BatchRun(spec, py, values, ups);
      && UniqueKeys(b.changed)
      && (forall k :: Current(b.values, k) == (if Lookup(b.changed, k).Some? then Lookup(b.changed, k).value else Current(values, k)))
      && (forall k :: Lookup(b.changed, k).Some? ==> exists i :: 0 <= i < |ups| && ups[i].0 == k)
    decreases |ups|
  {
    if |ups| > 0 {
      var n := |ups| - 1;
      BatchWritesChanged(spec, py, values, ups[..n]);
      var b := BatchRun(spec, py, values, ups[..n]);
      var u := ups[n];
      if u.0 in spec.engineeringControls && Coerce(spec.engineeringControls[u.0].pytype, u.1, py).Ok? {
        AssignKeepsUnique(b.changed, u.0, Coerce(spec.engineeringControls[u.0].pytype, u.1, py).value);
      }
      forall k | Lookup(BatchRun(spec, py, values, ups).changed, k).Some?
        ensures exists i :: 0 <= i < |ups| && ups[i].0 == k
      {
        if k != ups[n].0 {
          var i :| 0 <= i < n && ups[..n][i].0 == k;
          assert ups[i].0 == k;
        }
      }
    }
  }

  /** A batch whose keys are all already at their coerced values changes nothing and emits nothing. */
  lemma {:induction false} BatchOfCurrentValuesIsQuiet(spec: SL.EPGSettingsSpec, py: Builtins, values: Values, ups: Updates)
    requires forall i :: 0 <= i < |ups| ==> (ups[i].0 in spec.engineeringControls
      && Coerce(spec.engineeringControls[ups[i].0].pytype, ups[i].1, py).Ok?
      && Equal(Current(values, ups[i].0), Coerce(spec.engineeringControls[ups[i].0].pytype, ups[i].1, py).value))
    ensures BatchOutcome(spec, py, values, ups) == Outcome(values, [], None)
    decreases |ups|
  {
    if |ups| > 0 {
      BatchOfCurrentValuesIsQuiet(spec, py, values, ups[..|ups| - 1]);
    }
  }

  /** One iteration of `load_from_dict`'s loop: a known name is assigned, an unknown one (the KeyError) skipped. */
  function LoadStep(u: Updates, entry: (string, Value)): Updates
  {
    match SL.KeyOfName(entry.0)
    case None => u
    case Some(k) => Assign(u, k, entry.1)
  }

  /** The `updates` dict `load_from_dict` builds. */
  function KnownUpdates(data: seq<(string, Value)>): Updates
    decreases |data|
  {
    if |data| == 0 then [] else LoadStep(KnownUpdates(data[..|data| - 1]), data[|data| - 1])
  }

  /** An unknown name anywhere in the data makes no difference to the updates. */
  lemma {:induction false} UnknownNamesIgnored(pre: seq<(string, Value)>, name: string, v: Value, post: seq<(string, Value)>)
    requires SL.KeyOfName(name).None?
    ensures KnownUpdates(pre + [(name, v)] + post) == KnownUpdates(pre + post)
    decreases |post|
  {
    var x := pre + [(name, v)] + post;
    if |post| == 0 {
      assert x[..|x| - 1] == pre && x[|x| - 1] == (name, v);
      assert pre + post == pre;
    } else {
      var n := |post| - 1;
      var y := pre + post;
      UnknownNamesIgnored(pre, name, v, post[..n]);
      assert x[..|x| - 1] == pre + [(name, v)] + post[..n] && x[|x| - 1] == post[n];
      assert y[..|y| - 1] == pre + post[..n] && y[|y| - 1] == post[n];
    }
  }

  // ---------------------------------------------------------------------------
  // The object

  class ControlState {
    const spec: SL.EPGSettingsSpec
    const py: Builtins
    var values: Values
    var events: seq<Event>

    /** Every control of the spec has a value and nothing else does. */
    predicate Valid()
      reads this
    {
      values.Keys == spec.engineeringControls.Keys
    }

    /** Each control starts at its `default_value`. */
    constructor (spec: SL.EPGSettingsSpec, py: Builtins)
      ensures this.spec == spec && this.py == py && Valid() && events == []
      ensures forall k :: k in spec.engineeringControls ==> values[k] == spec.engineeringControls[k].defaultValue
    {
      this.spec := spec;
      this.py := py;
      values := map k | k in spec.engineeringControls :: spec.engineeringControls[k].defaultValue;
      events := [];
    }

    /** `get(key)`: the value, or KeyError for a key the spec does not define. */
    function Get(key: Key): (r: Result<Value, Exception>)
      reads this
      requires Valid()
      ensures r.Ok? <==> key in spec.engineeringControls
      ensures r.Ok? ==> r.value == values[key]
    {
      if key in values then Ok(values[key]) else Err(KeyError)
    }

    /** `set(key, value)`. */
    method Set(key: Key, value: Value) returns (err: Option<Exception>)
      requires Valid()
      modifies this
      ensures Valid()
      ensures var o := SetOutcome(spec, py, old(values), key, value);
        values == o.values && events == old(events) + o.emitted && err == o.error
    {
      if key !in spec.engineeringControls {
        return Some(KeyError);
      }
      var coerced := Coerce(spec.engineeringControls[key].pytype, value, py);
      if coerced.Err? {
        return Some(TypeError);
      }
      var previous := Current(values, key);
      if !Equal(previous, coerced.value) {
        values := values[key := coerced.value];
        events := events + [Changed(key, previous, coerced.value)];
      }
      return None;
    }

    /** `set_batch(updates)`: entries in order, each written as soon as it is coerced; signals only after the loop. */
    method SetBatch(updates: Updates) returns (err: Option<Exception>)
      requires Valid()
      modifies this
      ensures Valid()
      ensures var o := BatchOutcome(spec, py, old(values), updates);
        values == o.values && events == old(events) + o.emitted && err == o.error
    {
      var changed: Updates := [];
      var i := 0;
      while i < |updates|
        invariant 0 <= i <= |updates| && Valid() && events == old(events)
        invariant BatchRun(spec, py, old(values), updates[..i]) == BatchState(values, changed, None)
      {
        assert updates[..i + 1][..i] == updates[..i];
        var (k, v) := updates[i];
        if k !in spec.engineeringControls {
          BatchStopsAtError(spec, py, old(values), updates, i + 1);
          return Some(KeyError);
        }
        var coerced := Coerce(spec.engineeringControls[k].pytype, v, py);
        if coerced.Err? {
          BatchStopsAtError(spec, py, old(values), updates, i + 1);
          return Some(TypeError);
        }
        if !Equal(Current(values, k), coerced.value) {
          values := values[k := coerced.value];
          changed := Assign(changed, k, coerced.value);
        }
        i := i + 1;
      }
      assert updates[..i] == updates;
      events := events + BatchEvents(changed);
      return None;
    }

    /** `load_from_dict(data)`: unknown names are skipped; a batch is set only when some name is known. */
    method LoadFromDict(data: seq<(string, Value)>) returns (err: Option<Exception>)
      requires Valid()
      modifies this
      ensures Valid()
      ensures var ups := KnownUpdates(data);
        var o := if ups == [] then Outcome(old(values), [], None) else BatchOutcome(spec, py, old(values), ups);
        values == o.values && events == old(events) + o.emitted && err == o.error
    {
      var updates: Updates := [];
      var i := 0;
      while i < |data|
        invariant 0 <= i <= |data| && updates == KnownUpdates(data[..i])
      {
        assert data[..i + 1][..i] == data[..i];
        var key := SL.KeyOfName(data[i].0);
        if key.Some? {
          updates := Assign(updates, key.value, data[i].1);
        }
        i := i + 1;
      }
      assert data[..i] == data;
      err := None;
      if updates != [] {
        err := SetBatch(updates);
      }
    }
  }
}
