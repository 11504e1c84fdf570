/**
 * The dynamic Python values the settings code handles (what `yaml.safe_load`
 * produces and what widgets hand over), with the builtins the code applies to
 * them: truthiness, `==`, `int()`, `float()`, `str()` and dictionary lookup.
 *
 * Parsing a float from text and the text of a float or a container are left
 * to a `Builtins` parameter: they are floating-point formatting.
 */
module PyValue {
  import opened Wrappers
  import PyText

  datatype Value =
    | PyNone
    | Bool(b: bool)
    | Int(i: int)
    | Float(r: real)
    | Str(s: string)
    | List(items: seq<Value>)
    | Dict(entries: seq<(string, Value)>)

  /** The exceptions the code raises or lets escape. */
  datatype Exception = ValueError | TypeError | KeyError | AttributeError | IndexError | ZeroDivisionError

  /** The builtins whose detail is floating-point text: `float(s)` of a string, and `str()` of a float, list or dict. */
  datatype Builtins = Builtins(floatOfText: string -> Option<real>, text: Value -> string)

  /** The Python types a control can declare. */
  datatype PyType = IntType | FloatType | StrType

  predicate IsNumber(v: Value) { v.Bool? || v.Int? || v.Float? }

  /** The numeric value of a bool, int or float (`True == 1`). */
  function Number(v: Value): real
    requires IsNumber(v)
  {
    match v
    case Bool(b) => if b then 1.0 else 0.0
    case Int(i) => i as real
    case Float(r) => r
  }

  /** `bool(v)`. */
  predicate Truthy(v: Value)
  {
    match v
    case PyNone => false
    case Bool(b) => b
    case Int(i) => i != 0
    case Float(r) => r != 0.0
    case Str(s) => |s| > 0
    case List(items) => |items| > 0
    case Dict(entries) => |entries| > 0
  }

  /** `v or default`. */
  function Or(v: Value, default: Value): (r: Value)
    ensures Truthy(v) ==> r == v
    ensures !Truthy(v) ==> r == default
  {
    if Truthy(v) then v else default
  }

  /**
   * `a == b`. Numbers compare by value across bool, int and float, strings by
   * content, lists element by element; dictionaries are compared entry by
   * entry in order.
   */
  predicate Equal(a: Value, b: Value)
  {
    if IsNumber(a) && IsNumber(b) then Number(a) == Number(b)
    else if a.List? && b.List? then
      |a.items| == |b.items| && forall i :: 0 <= i < |a.items| ==> Equal(a.items[i], b.items[i])
    else if a.Dict? && b.Dict? then a == b
    else if IsNumber(a) || IsNumber(b) then false
    else a == b
  }

  lemma EqualReflexive(a: Value)
    ensures Equal(a, a)
  {
    match a
    case List(items) =>
      forall i | 0 <= i < |items| ensures Equal(items[i], items[i]) { EqualReflexive(items[i]); }
    case _ =>
  }

  /** `int(r)` for a float: truncation toward zero. */
  function Trunc(r: real): (n: int)
    ensures r >= 0.0 ==> n as real <= r < n as real + 1.0
    ensures r < 0.0 ==> n as real - 1.0 < r <= n as real
  {
    if r >= 0.0 then r.Floor else -((-r).Floor)
  }

  /** `int(v)`. */
  function ToInt(v: Value): Result<int, Exception>
  {
    match v
    case Bool(b) => Ok(if b then 1 else 0)
    case Int(i) => Ok(i)
    case Float(r) => Ok(Trunc(r))
    case Str(s) => if PyText.PyInt(s).Some? then Ok(PyText.PyInt(s).value) else Err(ValueError)
    case _ => Err(TypeError)
  }

  /** `float(v)`. */
  function ToFloat(v: Value, py: Builtins): Result<real, Exception>
  {
    match v
    case Bool(b) => Ok(if b then 1.0 else 0.0)
    case Int(i) => Ok(i as real)
    case Float(r) => Ok(r)
    case Str(s) => if py.floatOfText(s).Some? then Ok(py.floatOfText(s).value) else Err(ValueError)
    case _ => Err(TypeError)
  }

  /** `str(v)`. */
  function ToStr(v: Value, py: Builtins): string
  {
    match v
    case PyNone => "None"
    case Bool(b) => if b then "True" else "False"
    case Int(i) => PyText.IntToDecimal(i)
    case Str(s) => s
    case _ => py.text(v)
  }

  /** `t(v)` for a declared type: the value converted, or the exception the conversion raises. */
  function Coerce(t: PyType, v: Value, py: Builtins): (r: Result<Value, Exception>)
    ensures r.Ok? ==> (match t case IntType => r.value.Int? case FloatType => r.value.Float? case StrType => r.value.Str?)
  {
    match t
    case IntType => (var n :- ToInt(v); Ok(Int(n)))
    case FloatType => (var x :- ToFloat(v, py); Ok(Float(x)))
    case StrType => Ok(Str(ToStr(v, py)))
  }

  /** Converting a value already of the declared type gives it back. */
  lemma CoerceKeepsOwnType(t: PyType, v: Value, py: Builtins)
    requires (t == IntType && v.Int?) || (t == FloatType && v.Float?) || (t == StrType && v.Str?)
    ensures Coerce(t, v, py) == Ok(v)
  {
  }

  /** `int(str(n)) == n`: a whole number survives a round trip through a `str` control. */
  lemma IntThroughStr(n: int, py: Builtins)
    ensures Coerce(StrType, Int(n), py) == Ok(Str(PyText.IntToDecimal(n)))
    ensures ToInt(Str(PyText.IntToDecimal(n))) == Ok(n)
  {
    PyText.IntDecimalRoundTrip(n);
  }

  /** `d.get(key)`. */
  function Get(entries: seq<(string, Value)>, key: string): (r: Option<Value>)
    ensures r.Some? <==> exists i :: 0 <= i < |entries| && entries[i].0 == key
    ensures r.Some? ==> exists i :: 0 <= i < |entries| && entries[i] == (key, r.value)
  {
    if |entries| == 0 then None
    else if entries[0].0 == key then Some(entries[0].1)
    else
      var r := Get(entries[1..], key);
      assert r.Some? ==> entries[1..][0].0 == key || exists i :: 1 <= i < |entries| && entries[i].0 == key;
      r
  }

  predicate Has(entries: seq<(string, Value)>, key: string)
  {
    Get(entries, key).Some?
  }

  /** `d.get(key, default)`. */
  function GetOr(entries: seq<(string, Value)>, key: string, default: Value): (r: Value)
    ensures !Has(entries, key) ==> r == default
  {
    match Get(entries, key)
    case Some(v) => v
    case None => default
  }

  /** `d[key] = v`: an existing key keeps its place and a new one goes last. */
  function SetItem(entries: seq<(string, Value)>, key: string, v: Value): (r: seq<(string, Value)>)
    ensures Get(r, key) == Some(v)
    ensures forall k :: k != key ==> Get(r, k) == Get(entries, k)
    ensures Has(entries, key) ==> |r| == |entries|
    ensures !Has(entries, key) ==> r == entries + [(key, v)]
  {
    if |entries| == 0 then [(key, v)]
    else if entries[0].0 == key then [(key, v)] + entries[1..]
    else [entries[0]] + SetItem(entries[1..], key, v)
  }

  /** `d.pop(key, None)`, the value dropped: the key is gone and nothing else changes. */
  function Remove(entries: seq<(string, Value)>, key: string): (r: seq<(string, Value)>)
    ensures !Has(r, key)
    ensures forall k :: k != key ==> Get(r, k) == Get(entries, k)
    ensures !Has(entries, key) ==> r == entries
  {
    if |entries| == 0 then []
    else if entries[0].0 == key then Remove(entries[1..], key)
    else [entries[0]] + Remove(entries[1..], key)
  }

  /** The text of a dictionary key as Python iterates it. */
  function Keys(entries: seq<(string, Value)>): (ks: seq<string>)
    ensures |ks| == |entries| && forall i :: 0 <= i < |entries| ==> ks[i] == entries[i].0
  {
    if |entries| == 0 then [] else [entries[0].0] + Keys(entries[1..])
  }

  /** What `for x in v` walks: a list's items, a string's characters, a dict's keys; anything else is not iterable. */
  function Iterate(v: Value): (r: Result<seq<Value>, Exception>)
    ensures v.List? ==> r == Ok(v.items)
    ensures v.PyNone? || IsNumber(v) ==> r == Err(TypeError)
  {
    match v
    case List(items) => Ok(items)
    case Str(s) => Ok(seq(|s|, i requires 0 <= i < |s| => Str([s[i]])))
    case Dict(entries) => Ok(seq(|entries|, i requires 0 <= i < |entries| => Str(entries[i].0)))
    case _ => Err(TypeError)
  }
}
