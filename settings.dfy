/**
 * The application settings store (software/cs/gui/settings/Settings.py): one
 * attribute per setting, loaded from QSettings with per-type parsing, written
 * back on every `set`, restored by `reset`, and a per-label colour table with
 * one colour per plot theme.
 *
 * QSettings is a field mapping each key to what was stored under it; values
 * come back as they were stored. The working directory of the process and
 * the random colours generated for unseen labels are parameters.
 */
module SettingsStore {
  import opened Wrappers
  import opened PyValue
  import PyText

  // ---------------------------------------------------------------------------
  // Colours

  /** A QColor: an RGB colour, or the invalid colour. */
  datatype Color = Rgb(red: int, green: int, blue: int) | InvalidColor

  predicate IsComponent(c: int) { 0 <= c <= 255 }

  predicate ValidColor(c: Color)
  {
    c.Rgb? && IsComponent(c.red) && IsComponent(c.green) && IsComponent(c.blue)
  }

  function HexDigit(n: nat): (c: char)
    requires n < 16
  {
    if n < 10 then ('0' as int + n) as char else ('a' as int + n - 10) as char
  }

  function HexValue(c: char): Option<nat>
  {
    if '0' <= c <= '9' then Some(c as int - '0' as int)
    else if 'a' <= c <= 'f' then Some(c as int - 'a' as int + 10)
    else if 'A' <= c <= 'F' then Some(c as int - 'A' as int + 10)
    else None
  }

  function Hex2(n: int): string
    requires IsComponent(n)
  {
    [HexDigit(n / 16), HexDigit(n % 16)]
  }

  /** `QColor.name()`: `#rrggbb` in lower case; the invalid colour names as black. */
  function Name(c: Color): (s: string)
    ensures |s| == 7 && s[0] == '#'
  {
    if ValidColor(c) then "#" + Hex2(c.red) + Hex2(c.green) + Hex2(c.blue) else "#000000"
  }

  function HexPair(a: char, b: char): Option<int>
  {
    if HexValue(a).Some? && HexValue(b).Some? then Some(HexValue(a).value * 16 + HexValue(b).value) else None
  }

  /** `QColor(text)` for the `#rrggbb` spelling, either case; any other text is the invalid colour. */
  function ParseColor(s: string): (c: Color)
    ensures c.Rgb? ==> ValidColor(c)
  {
    if |s| == 7 && s[0] == '#' && HexPair(s[1], s[2]).Some? && HexPair(s[3], s[4]).Some? && HexPair(s[5], s[6]).Some?
    then Rgb(HexPair(s[1], s[2]).value, HexPair(s[3], s[4]).value, HexPair(s[5], s[6]).value)
    else InvalidColor
  }

  lemma Hex2RoundTrip(n: int)
    requires IsComponent(n)
    ensures HexPair(Hex2(n)[0], Hex2(n)[1]) == Some(n)
  {
  }

  /** A valid colour survives being stored by name and read back. */
  lemma ColorNameRoundTrip(c: Color)
    requires ValidColor(c)
    ensures ParseColor(Name(c)) == c
  {
    var s := Name(c);
    Hex2RoundTrip(c.red);
    Hex2RoundTrip(c.green);
    Hex2RoundTrip(c.blue);
    assert s[1..3] == Hex2(c.red) && s[3..5] == Hex2(c.green) && s[5..7] == Hex2(c.blue);
  }

  // ---------------------------------------------------------------------------
  // Settings values and the static tables

  /** A setting's value: a Python value, or a QColor object. */
  datatype Attr = Val(v: Value) | ColorAttr(c: Color)

  /** `str()` of a QColor object: its default repr, never a word the bool parser accepts. */
  const QColorRepr: string := "<PyQt6.QtGui.QColor object>"

  const PlotLight: Value := Dict([
    ("NAME", Str("LIGHT")), ("BACKGROUND", Str("#F5F5F6")), ("FOREGROUND", Str("#111132")),
    ("AXIS_COLOR", Str("#111132")), ("FONT_COLOR_1", Str("#111132")), ("TRANSITION_LINE_COLOR", Str("#464650"))])

  const PlotDark: Value := Dict([
    ("NAME", Str("DARK")), ("BACKGROUND", Str("#1E1E1E")), ("FOREGROUND", Str("#888888")),
    ("AXIS_COLOR", Str("#EBEBEB")), ("FONT_COLOR_1", Str("#EBEBEB")), ("TRANSITION_LINE_COLOR", Str("#909092"))])

  /** The Python types of `SETTINGS_TYPE_MAP`. */
  datatype Kind = DictKind | ColorKind | IntKind | BoolKind | StrKind | FloatKind

  /** `SETTINGS_TYPE_MAP`, in its order. */
  const TypeMap: seq<(string, Kind)> := [
    ("plot_theme", DictKind), ("label_colors", DictKind), ("data_line_color", ColorKind),
    ("data_line_width", IntKind), ("show_h_grid", BoolKind), ("show_v_grid", BoolKind),
    ("show_labels", BoolKind), ("show_durations", BoolKind), ("show_comments", BoolKind),
    ("default_recording_directory", StrKind), ("backup_recording_directory", StrKind),
    ("dm_range", IntKind), ("default_min_voltage", FloatKind), ("default_max_voltage", FloatKind)]

  const DataLineColor: Color := Rgb(0x4A, 0x82, 0xE2)

  /** `DEFAULT_SETTINGS`, in its order; both recording directories are the working directory. */
  function Defaults(cwd: string): seq<(string, Attr)>
  {
    [("plot_theme", Val(PlotLight)), ("label_colors", Val(Dict([]))), ("data_line_color", ColorAttr(DataLineColor)),
     ("data_line_width", Val(Int(2))), ("show_h_grid", Val(Bool(false))), ("show_v_grid", Val(Bool(true))),
     ("show_labels", Val(Bool(true))), ("show_durations", Val(Bool(true))), ("show_comments", Val(Bool(true))),
     ("default_recording_directory", Val(Str(cwd))), ("backup_recording_directory", Val(Str(cwd))),
     ("dm_range", Val(Int(10))), ("default_min_voltage", Val(Float(-1.0))), ("default_max_voltage", Val(Float(1.0)))]
  }

  /** `DEFAULT_SETTINGS.get(key)`. */
  function Default(cwd: string, key: string): Attr
  {
    DefaultIn(Defaults(cwd), key)
  }

  function DefaultIn(table: seq<(string, Attr)>, key: string): Attr
  {
    if |table| == 0 then Val(PyNone)
    else if table[0].0 == key then table[0].1
    else DefaultIn(table[1..], key)
  }

  /** Looking up a key no earlier entry has finds its own entry. */
  lemma {:induction false} DistinctLookup(table: seq<(string, Attr)>, i: nat)
    requires i < |table| && forall j :: 0 <= j < i ==> table[j].0 != table[i].0
    ensures DefaultIn(table, table[i].0) == table[i].1
    decreases i
  {
    if i > 0 {
      assert table[0].0 != table[i].0;
      DistinctLookup(table[1..], i - 1);
    }
  }

  // ---------------------------------------------------------------------------
  // Parsing a stored value (`load`)

  /** `str(raw)`. */
  function StrOf(raw: Attr, py: Builtins): string
  {
    match raw
    case Val(v) => ToStr(v, py)
    case ColorAttr(_) => QColorRepr
  }

  /** `raw is None` or a string that strips and lower-cases to `none`, `null` or nothing. */
  predicate Nullish(raw: Attr)
  {
    raw == Val(PyNone) || (raw.Val? && raw.v.Str? && PyText.Lower(PyText.Strip(raw.v.s)) in {"none", "null", ""})
  }

  /** `str(raw).lower() in ("true", "1", "yes", "on")`. */
  predicate BoolOf(raw: Attr, py: Builtins)
  {
    PyText.Lower(StrOf(raw, py)) in {"true", "1", "yes", "on"}
  }

  /** `QColor(raw)`. */
  function ColorOf(raw: Attr): Color
  {
    match raw
    case ColorAttr(c) => c
    case Val(v) => if v.Str? then ParseColor(v.s) else InvalidColor
  }

  /** `raw.get("NAME", "LIGHT").upper()` and the theme it picks. */
  function ThemeOf(raw: Attr): Result<Value, Exception>
  {
    if !(raw.Val? && raw.v.Dict?) then Err(AttributeError)
    else
      var name := GetOr(raw.v.entries, "NAME", Str("LIGHT"));
      if !name.Str? then Err(AttributeError)
      else Ok(if PyText.Upper(name.s) == "LIGHT" then PlotLight else PlotDark)
  }

  /** Truthiness of a setting value; a QColor object is truthy. */
  predicate AttrTruthy(raw: Attr)
  {
    raw.ColorAttr? || Truthy(raw.v)
  }

  /** `type_(raw)` for the remaining types. */
  function Convert(kind: Kind, raw: Attr, py: Builtins): Result<Attr, Exception>
  {
    match kind
    case IntKind => if raw.ColorAttr? then Err(TypeError) else (var n :- ToInt(raw.v); Ok(Val(Int(n))))
    case FloatKind => if raw.ColorAttr? then Err(TypeError) else (var x :- ToFloat(raw.v, py); Ok(Val(Float(x))))
    case StrKind => Ok(Val(Str(StrOf(raw, py))))
    case DictKind => if raw.Val? && raw.v.Dict? then Ok(raw) else Err(TypeError)
    case _ => Ok(raw)
  }

  /** The value one key takes from its raw stored value, in the order the source tests type and key. */
  function ParseValue(key: string, kind: Kind, raw: Attr, py: Builtins): Result<Attr, Exception>
  {
    if kind == ColorKind then Ok(ColorAttr(ColorOf(raw)))
    else if kind == BoolKind then Ok(Val(Bool(BoolOf(raw, py))))
    else if key == "plot_theme" then (var t :- ThemeOf(raw); Ok(Val(t)))
    else if key == "label_colors" then Ok(if AttrTruthy(raw) then raw else Val(Dict([])))
    else Convert(kind, raw, py)
  }

  /** The raw value `load` uses: the stored one, the default when nothing is stored, or the default for a null-like one. */
  function RawValue(store: map<string, Attr>, cwd: string, key: string): (raw: Attr)
    ensures key !in store ==> raw == Default(cwd, key)
    ensures key in store && Nullish(store[key]) ==> raw == Default(cwd, key)
    ensures key in store && !Nullish(store[key]) ==> raw == store[key]
  {
    var raw := if key in store then store[key] else Default(cwd, key);
    if Nullish(raw) then Default(cwd, key) else raw
  }

  function LoadKey(store: map<string, Attr>, cwd: string, py: Builtins, entry: (string, Kind)): Result<Attr, Exception>
  {
    ParseValue(entry.0, entry.1, RawValue(store, cwd, entry.0), py)
  }

  /** The attributes after `load` walked `keys`, and the exception that stopped it; keys loaded before it keep their new values. */
  function LoadAll(attrs: map<string, Attr>, store: map<string, Attr>, cwd: string, py: Builtins, keys: seq<(string, Kind)>)
    : (map<string, Attr>, Option<Exception>)
    decreases |keys|
  {
    if |keys| == 0 then (attrs, None)
    else
      var before := LoadAll(attrs, store, cwd, py, keys[..|keys| - 1]);
      if before.1.Some? then before
      else match LoadKey(store, cwd, py, keys[|keys| - 1])
        case Ok(v) => (before.0[keys[|keys| - 1].0 := v], None)
        case Err(e) => (before.0, Some(e))
  }

  /** Once a key raised, `load` goes no further. */
  lemma {:induction false} LoadStops(attrs: map<string, Attr>, store: map<string, Attr>, cwd: string, py: Builtins, keys: seq<(string, Kind)>, n: nat)
    requires n <= |keys| && LoadAll(attrs, store, cwd, py, keys[..n]).1.Some?
    ensures LoadAll(attrs, store, cwd, py, keys) == LoadAll(attrs, store, cwd, py, keys[..n])
    decreases |keys| - n
  {
    if n < |keys| {
      var m := |keys| - 1;
      assert keys[..m][..n] == keys[..n];
      LoadStops(attrs, store, cwd, py, keys[..m], n);
    } else {
      assert keys[..n] == keys;
    }
  }

  // ---------------------------------------------------------------------------
  // Storing a value (`_prepare_for_storage`)

  /** `{"LIGHT": v["LIGHT"], "DARK": v["DARK"]}` for each label of the table. */
  function ProjectColors(entries: seq<(string, Value)>): Result<seq<(string, Value)>, Exception>
  {
    if |entries| == 0 then Ok([])
    else
      var v := entries[0].1;
      if !v.Dict? then Err(TypeError)
      else
        var light :- (match Get(v.entries, "LIGHT") case Some(x) => Ok(x) case None => Err(KeyError));
        var dark :- (match Get(v.entries, "DARK") case Some(x) => Ok(x) case None => Err(KeyError));
        var rest :- ProjectColors(entries[1..]);
        Ok([(entries[0].0, Dict([("LIGHT", light), ("DARK", dark)]))] + rest)
  }

  /** `_prepare_for_storage(value, key)`: a colour by its name, the label table by its two theme entries, anything else as it is. */
  function Prepare(value: Attr, key: Option<string>): (r: Result<Attr, Exception>)
    ensures key != Some("label_colors") ==> r.Ok?
    ensures value.ColorAttr? ==> r == Ok(Val(Str(Name(value.c))))
  {
    if value.ColorAttr? then Ok(Val(Str(Name(value.c))))
    else if key == Some("label_colors") && value.v.Dict? then (var t :- ProjectColors(value.v.entries); Ok(Val(Dict(t))))
    else Ok(value)
  }

  // ---------------------------------------------------------------------------
  // Round trip: what `set` stores, the next `load` reads back

  /** One entry of a label table: the two theme colours, in the order `set_label_color` writes them. */
  predicate IsColorEntry(v: Value)
  {
    v.Dict? && |v.entries| == 2 && v.entries[0].0 == "LIGHT" && v.entries[1].0 == "DARK"
  }

  predicate IsColorTable(v: Value)
  {
    v.Dict? && forall i :: 0 <= i < |v.entries| ==> IsColorEntry(v.entries[i].1)
  }

  /** A value of the type the key's `SETTINGS_TYPE_MAP` entry names, as the program itself sets it. */
  predicate WellTyped(key: string, kind: Kind, value: Attr)
  {
    if key == "plot_theme" then value == Val(PlotLight) || value == Val(PlotDark)
    else if key == "label_colors" then value.Val? && IsColorTable(value.v)
    else match kind
      case ColorKind => value.ColorAttr? && ValidColor(value.c)
      case IntKind => value.Val? && value.v.Int?
      case BoolKind => value.Val? && value.v.Bool?
      case StrKind => value.Val? && value.v.Str?
      case FloatKind => value.Val? && value.v.Float?
      case DictKind => value.Val? && value.v.Dict?
  }

  lemma {:induction false} ProjectColorTable(entries: seq<(string, Value)>)
    requires IsColorTable(Dict(entries))
    ensures ProjectColors(entries) == Ok(entries)
    decreases |entries|
  {
    if |entries| > 0 {
      assert IsColorTable(Dict(entries[1..])) by {
        forall i | 0 <= i < |entries[1..]| ensures IsColorEntry(entries[1..][i].1) {
          assert entries[1..][i] == entries[i + 1];
        }
      }
      ProjectColorTable(entries[1..]);
      var v := entries[0].1;
      assert IsColorEntry(v);
      assert v.entries == [("LIGHT", v.entries[0].1), ("DARK", v.entries[1].1)];
      assert PyValue.Get(v.entries, "LIGHT") == Some(v.entries[0].1);
      assert PyValue.Get(v.entries, "DARK") == Some(v.entries[1].1) by {
        assert v.entries[1..] == [("DARK", v.entries[1].1)];
      }
      assert entries == [(entries[0].0, v)] + entries[1..];
    }
  }

  /**
   * Save then load: a well-typed value stored under its key parses back to
   * itself, unless it is a null-like string, which loads as the default.
   */
  lemma SaveLoadRoundTrip(store: map<string, Attr>, cwd: string, py: Builtins, i: nat, value: Attr)
    requires i < |TypeMap| && WellTyped(TypeMap[i].0, TypeMap[i].1, value)
    ensures var key := TypeMap[i].0;
      Prepare(value, Some(key)).Ok? &&
      var stored := Prepare(value, Some(key)).value;
      LoadKey(store[key := stored], cwd, py, TypeMap[i])
      == if Nullish(stored) then ParseValue(key, TypeMap[i].1, Default(cwd, key), py) else Ok(value)
  {
    var key := TypeMap[i].0;
    var kind := TypeMap[i].1;
    if key == "label_colors" {
      ProjectColorTable(value.v.entries);
    } else if kind == ColorKind {
      ColorNameRoundTrip(value.c);
    } else if kind == IntKind || kind == FloatKind || kind == StrKind {
      assert Prepare(value, Some(key)) == Ok(value);
    } else if kind == BoolKind {
      assert PyText.Lower("True") == "true";
      assert PyText.Lower("False") == "false";
    }
  }

  /** The default at position `i` is stored under its own key, and storing it then loading gives it back. */
  ghost predicate Reloads(cwd: string, py: Builtins, i: nat)
    requires i < |TypeMap|
  {
    TypeMap[i].0 == Defaults(cwd)[i].0 &&
    Prepare(Defaults(cwd)[i].1, None).Ok? &&
    LoadKey(map[TypeMap[i].0 := Prepare(Defaults(cwd)[i].1, None).value], cwd, py, TypeMap[i]) == Ok(Defaults(cwd)[i].1)
  }

  /** Every default parses back to itself: the values `reset` stores are the ones the next `load` gives. */
  lemma DefaultsReload(cwd: string, py: Builtins)
    ensures forall i :: 0 <= i < |TypeMap| ==> Reloads(cwd, py, i)
  {
    forall i | 0 <= i < |TypeMap|
      ensures Reloads(cwd, py, i)
    {
      if i == 0 { ReloadTheme(cwd, py); }
      else if i == 1 { ReloadLabelColors(cwd, py); }
      else if i == 2 { ReloadLineColor(cwd, py); }
      else if i < 6 { ReloadLine(cwd, py, i); }
      else if i < 9 { ReloadFlags(cwd, py, i); }
      else if i < 11 { ReloadDirs(cwd, py, i); }
      else { ReloadNumbers(cwd, py, i); }
    }
  }

  /** The plot theme. */
  lemma ReloadTheme(cwd: string, py: Builtins)
    ensures Reloads(cwd, py, 0)
  {
    var key := TypeMap[0].0;
    var d := Defaults(cwd)[0].1;
    assert Prepare(d, None) == Prepare(d, Some(key));
    SaveLoadRoundTrip(map[], cwd, py, 0, d);
  }

  /** The label table. */
  lemma ReloadLabelColors(cwd: string, py: Builtins)
    ensures Reloads(cwd, py, 1)
  {
    var key := TypeMap[1].0;
    var d := Defaults(cwd)[1].1;
    assert Prepare(d, None) == Prepare(d, Some(key));
    SaveLoadRoundTrip(map[], cwd, py, 1, d);
  }

  /** The line colour. */
  lemma ReloadLineColor(cwd: string, py: Builtins)
    ensures Reloads(cwd, py, 2)
  {
    var key := TypeMap[2].0;
    var d := Defaults(cwd)[2].1;
    assert Prepare(d, None) == Prepare(d, Some(key));
    SaveLoadRoundTrip(map[], cwd, py, 2, d);
  }

  /** The line width and the grid flags. */
  lemma ReloadLine(cwd: string, py: Builtins, i: nat)
    requires 3 <= i < 6
    ensures Reloads(cwd, py, i)
  {
    if i == 3 {
      var key := TypeMap[3].0;
      var d := Defaults(cwd)[3].1;
      assert Prepare(d, None) == Prepare(d, Some(key));
      SaveLoadRoundTrip(map[], cwd, py, 3, d);
      assert Reloads(cwd, py, 3);
    } else if i == 4 {
      var key := TypeMap[4].0;
      var d := Defaults(cwd)[4].1;
      assert Prepare(d, None) == Prepare(d, Some(key));
      SaveLoadRoundTrip(map[], cwd, py, 4, d);
      assert Reloads(cwd, py, 4);
    } else {
      var key := TypeMap[5].0;
      var d := Defaults(cwd)[5].1;
      assert Prepare(d, None) == Prepare(d, Some(key));
      SaveLoadRoundTrip(map[], cwd, py, 5, d);
      assert Reloads(cwd, py, 5);
    }
  }

  /** The remaining flags. */
  lemma ReloadFlags(cwd: string, py: Builtins, i: nat)
    requires 6 <= i < 9
    ensures Reloads(cwd, py, i)
  {
    if i == 6 {
      var key := TypeMap[6].0;
      var d := Defaults(cwd)[6].1;
      assert Prepare(d, None) == Prepare(d, Some(key));
      SaveLoadRoundTrip(map[], cwd, py, 6, d);
      assert Reloads(cwd, py, 6);
    } else if i == 7 {
      var key := TypeMap[7].0;
      var d := Defaults(cwd)[7].1;
      assert Prepare(d, None) == Prepare(d, Some(key));
      SaveLoadRoundTrip(map[], cwd, py, 7, d);
      assert Reloads(cwd, py, 7);
    } else {
      var key := TypeMap[8].0;
      var d := Defaults(cwd)[8].1;
      assert Prepare(d, None) == Prepare(d, Some(key));
      SaveLoadRoundTrip(map[], cwd, py, 8, d);
      assert Reloads(cwd, py, 8);
    }
  }

  /** The two recording directories. */
  lemma ReloadDirs(cwd: string, py: Builtins, i: nat)
    requires 9 <= i < 11
    ensures Reloads(cwd, py, i)
  {
    if i == 9 {
      var key := TypeMap[9].0;
      var d := Defaults(cwd)[9].1;
      assert forall j :: 0 <= j < 9 ==> |Defaults(cwd)[j].0| < |key|;
      DistinctLookup(Defaults(cwd), 9);
      assert Prepare(d, None) == Prepare(d, Some(key));
      SaveLoadRoundTrip(map[], cwd, py, 9, d);
      assert Reloads(cwd, py, 9);
    } else {
      var key := TypeMap[10].0;
      var d := Defaults(cwd)[10].1;
      DistinctLookup(Defaults(cwd), 10);
      assert Prepare(d, None) == Prepare(d, Some(key));
      SaveLoadRoundTrip(map[], cwd, py, 10, d);
      assert Reloads(cwd, py, 10);
    }
  }

  /** The range and the voltage bounds. */
  lemma ReloadNumbers(cwd: string, py: Builtins, i: nat)
    requires 11 <= i < 14
    ensures Reloads(cwd, py, i)
  {
    if i == 11 {
      var key := TypeMap[11].0;
      var d := Defaults(cwd)[11].1;
      assert Prepare(d, None) == Prepare(d, Some(key));
      SaveLoadRoundTrip(map[], cwd, py, 11, d);
      assert Reloads(cwd, py, 11);
    } else if i == 12 {
      var key := TypeMap[12].0;
      var d := Defaults(cwd)[12].1;
      assert Prepare(d, None) == Prepare(d, Some(key));
      SaveLoadRoundTrip(map[], cwd, py, 12, d);
      assert Reloads(cwd, py, 12);
    } else {
      var key := TypeMap[13].0;
      var d := Defaults(cwd)[13].1;
      assert Prepare(d, None) == Prepare(d, Some(key));
      SaveLoadRoundTrip(map[], cwd, py, 13, d);
      assert Reloads(cwd, py, 13);
    }
  }

  /** A theme dict picks the light theme exactly when its name upper-cases to `LIGHT` or is missing. */
  lemma ThemeChoice(entries: seq<(string, Value)>)
    ensures !Has(entries, "NAME") ==> ThemeOf(Val(Dict(entries))) == Ok(PlotLight)
    ensures ThemeOf(Val(Dict(entries))).Ok? <==> GetOr(entries, "NAME", Str("LIGHT")).Str?
    ensures ThemeOf(Val(Dict(entries))) == Ok(PlotLight) <==>
      (var n := GetOr(entries, "NAME", Str("LIGHT")); n.Str? && PyText.Upper(n.s) == "LIGHT")
  {
    assert PyText.Upper("LIGHT") == "LIGHT";
    assert PlotLight != PlotDark by { assert PlotLight.entries[0] != PlotDark.entries[0]; }
  }

  /** Anything but a dict as the stored theme makes `load` raise. */
  lemma ThemeNeedsDict(raw: Attr)
    requires !(raw.Val? && raw.v.Dict?)
    ensures ThemeOf(raw).Err?
  {
  }

  /** A bool setting reads the usual spellings of truth. */
  lemma BoolSpellings(py: Builtins)
    ensures BoolOf(Val(Str("Yes")), py) && BoolOf(Val(Str("ON")), py) && BoolOf(Val(Int(1)), py)
    ensures !BoolOf(Val(Str("off")), py) && !BoolOf(Val(Int(2)), py) && !BoolOf(ColorAttr(InvalidColor), py)
  {
    assert PyText.Lower("Yes") == "yes";
    assert PyText.Lower("ON") == "on";
    assert PyText.IntToDecimal(1) == "1";
    assert PyText.Lower("1") == "1";
    assert PyText.IntToDecimal(2) == "2";
    assert PyText.Lower("2") == "2";
    assert PyText.Lower("off") == "off";
    assert PyText.Lower(QColorRepr)[0] == '<';
  }

  // ---------------------------------------------------------------------------
  // Label colours

  /** The other theme's component: darker by 80 for the light theme, lighter by 80 otherwise, kept within 0..255. */
  function Inverted(lightTheme: bool, c: int): (r: int)
    requires IsComponent(c)
    ensures IsComponent(r)
    ensures lightTheme ==> r <= c && (c >= 80 ==> r == c - 80)
    ensures !lightTheme ==> r >= c && (c <= 175 ==> r == c + 80)
  {
    if lightTheme then PyMax(0, PyMin(255, c - 80)) else PyMin(255, c + 80)
  }

  function PyMax(a: int, b: int): int { if a >= b then a else b }
  function PyMin(a: int, b: int): int { if a <= b then a else b }

  function InvertedColor(lightTheme: bool, c: Color): (r: Color)
    requires ValidColor(c)
    ensures ValidColor(r)
  {
    Rgb(Inverted(lightTheme, c.red), Inverted(lightTheme, c.green), Inverted(lightTheme, c.blue))
  }

  /** The table entry `set_label_color` writes for a colour under the theme named `name`. */
  function ColorEntry(name: Value, c: Color): (v: Value)
    requires ValidColor(c)
    ensures IsColorEntry(v)
  {
    var inverted := InvertedColor(name == Str("LIGHT"), c);
    Dict([("LIGHT", Str(if name == Str("LIGHT") then Name(c) else Name(inverted))),
          ("DARK", Str(if name == Str("DARK") then Name(c) else Name(inverted)))])
  }

  /** `QColor(table[label][theme])`. */
  function ReadColor(table: seq<(string, Value)>, labelName: string, name: Value): Result<Color, Exception>
  {
    match Get(table, labelName)
    case None => Err(KeyError)
    case Some(v) =>
      if !v.Dict? || !name.Str? then Err(TypeError)
      else match Get(v.entries, name.s)
        case None => Err(KeyError)
        case Some(text) => Ok(ColorOf(Val(text)))
  }

  /** The label table once a missing label got the generated entry; a label already present keeps its own. */
  function WithEntry(table: seq<(string, Value)>, key: string, generated: Value): (r: seq<(string, Value)>)
    ensures PyValue.Get(r, key) == if Has(table, key) then PyValue.Get(table, key) else Some(generated)
    ensures forall k :: k != key ==> PyValue.Get(r, k) == PyValue.Get(table, k)
  {
    if Has(table, key) then table else SetItem(table, key, generated)
  }

  /** The colour set for a label is the one read back under the same theme, and the other theme's entry is a valid colour too. */
  lemma SetThenGetLabelColor(table: seq<(string, Value)>, labelName: string, name: Value, c: Color)
    requires ValidColor(c) && (name == Str("LIGHT") || name == Str("DARK"))
    ensures ReadColor(SetItem(table, labelName, ColorEntry(name, c)), labelName, name) == Ok(c)
    ensures var other := if name == Str("LIGHT") then Str("DARK") else Str("LIGHT");
      ReadColor(SetItem(table, labelName, ColorEntry(name, c)), labelName, other) == Ok(InvertedColor(name == Str("LIGHT"), c))
  {
    var entry := ColorEntry(name, c);
    var inverted := InvertedColor(name == Str("LIGHT"), c);
    var t := SetItem(table, labelName, entry);
    var other := if name == Str("LIGHT") then Str("DARK") else Str("LIGHT");
    ColorEntryRead(name, c);
    ColorNameRoundTrip(c);
    ColorNameRoundTrip(inverted);
    assert PyValue.Get(entry.entries, name.s) == Some(Str(Name(c)));
    assert PyValue.Get(entry.entries, other.s) == Some(Str(Name(inverted)));
    ReadEntry(t, labelName, entry, name);
    ReadEntry(t, labelName, entry, other);
  }

  /** Reading a label whose entry is a dict looks the theme up in that entry. */
  lemma ReadEntry(table: seq<(string, Value)>, labelName: string, entry: Value, name: Value)
    requires PyValue.Get(table, labelName) == Some(entry) && entry.Dict? && name.Str?
    ensures PyValue.Get(entry.entries, name.s).Some? ==>
      ReadColor(table, labelName, name) == Ok(ColorOf(Val(PyValue.Get(entry.entries, name.s).value)))
  {
  }

  /** The two theme entries of the written table entry: the colour itself under `name`, its inverse under the other. */
  lemma ColorEntryRead(name: Value, c: Color)
    requires ValidColor(c) && (name == Str("LIGHT") || name == Str("DARK"))
    ensures var inverted := InvertedColor(name == Str("LIGHT"), c);
      PyValue.Get(ColorEntry(name, c).entries, "LIGHT") == Some(Str(if name == Str("LIGHT") then Name(c) else Name(inverted))) &&
      PyValue.Get(ColorEntry(name, c).entries, "DARK") == Some(Str(if name == Str("DARK") then Name(c) else Name(inverted)))
  {
    var e := ColorEntry(name, c).entries;
    assert e[1..] == [e[1]];
  }

  /** Writing a label's entry into a label table keeps it a label table. */
  lemma {:induction false} SetItemKeepsTable(table: seq<(string, Value)>, labelName: string, v: Value)
    requires IsColorTable(Dict(table)) && IsColorEntry(v)
    ensures IsColorTable(Dict(SetItem(table, labelName, v)))
    decreases |table|
  {
    if |table| > 0 && table[0].0 != labelName {
      assert IsColorTable(Dict(table[1..])) by {
        forall i | 0 <= i < |table[1..]| ensures IsColorEntry(table[1..][i].1) {
          assert table[1..][i] == table[i + 1];
        }
      }
      SetItemKeepsTable(table[1..], labelName, v);
      var r := SetItem(table, labelName, v);
      assert r == [table[0]] + SetItem(table[1..], labelName, v);
      forall i | 0 <= i < |r| ensures IsColorEntry(r[i].1) {
        if i > 0 { assert r[i] == SetItem(table[1..], labelName, v)[i - 1]; }
      }
    }
  }

  /** Deleting a label twice is deleting it once. */
  lemma DeleteIdempotent(table: seq<(string, Value)>, labelName: string)
    ensures Remove(Remove(table, labelName), labelName) == Remove(table, labelName)
  {
  }

  // ---------------------------------------------------------------------------
  // The object

  class Settings {
    const py: Builtins
    const cwd: string
    /** The attributes, by name. */
    var attrs: map<string, Attr>
    /** The QSettings contents. */
    var store: map<string, Attr>
    /** `settingChanged(key, value)`, in order. */
    var emitted: seq<(string, Attr)>
    /**
     * The contents of the class-level dict `DEFAULT_SETTINGS["label_colors"]`.
     * `reset` makes `label_colors` that very dict, and the label methods then
     * change it in place.
     */
    var sharedLabelDefault: seq<(string, Value)>
    /** Whether `label_colors` is the class-level default dict itself. */
    var labelsAliased: bool

    /** The object before `__init__` calls `load`; the class-level label default is still the empty dict it is declared as. */
    constructor (store: map<string, Attr>, cwd: string, py: Builtins)
      ensures this.store == store && this.cwd == cwd && this.py == py
      ensures attrs == map[] && emitted == [] && sharedLabelDefault == [] && !labelsAliased
    {
      this.store := store;
      this.cwd := cwd;
      this.py := py;
      attrs := map[];
      emitted := [];
      sharedLabelDefault := [];
      labelsAliased := false;
    }

    /** When `label_colors` is the class-level dict, the attribute shows that dict's contents. */
    predicate AliasConsistent()
      reads this
    {
      labelsAliased ==> "label_colors" in attrs && attrs["label_colors"] == Val(Dict(sharedLabelDefault))
    }

    /** `get(key)`: the attribute, or AttributeError. */
    function Get(key: string): (r: Result<Attr, Exception>)
      reads this
      ensures r.Ok? <==> key in attrs
      ensures r.Ok? ==> r.value == attrs[key]
    {
      if key in attrs then Ok(attrs[key]) else Err(AttributeError)
    }

    /** `load()`: each key of the type map parsed from its stored value, in order, until one raises. */
    method Load() returns (err: Option<Exception>)
      modifies this
      ensures (attrs, err) == LoadAll(old(attrs), store, cwd, py, TypeMap)
      ensures store == old(store) && emitted == old(emitted)
      ensures sharedLabelDefault == old(sharedLabelDefault) && !labelsAliased
      ensures AliasConsistent()
    {
      labelsAliased := false;
      err := LoadKeys(TypeMap);
    }

    /** The loop of `load` over the keys of a type map. */
    method LoadKeys(keys: seq<(string, Kind)>) returns (err: Option<Exception>)
      modifies this
      ensures (attrs, err) == LoadAll(old(attrs), store, cwd, py, keys)
      ensures store == old(store) && emitted == old(emitted)
      ensures sharedLabelDefault == old(sharedLabelDefault) && labelsAliased == old(labelsAliased)
    {
      var i := 0;
      err := None;
      while i < |keys|
        invariant 0 <= i <= |keys| && store == old(store) && emitted == old(emitted)
        invariant sharedLabelDefault == old(sharedLabelDefault) && labelsAliased == old(labelsAliased)
        invariant (attrs, err) == LoadAll(old(attrs), store, cwd, py, keys[..i])
        invariant err == None
      {
        assert keys[..i + 1][..i] == keys[..i];
        var key := keys[i].0;
        var r := LoadKey(store, cwd, py, keys[i]);
        if r.Err? {
          err := Some(r.error);
          LoadStops(old(attrs), store, cwd, py, keys, i + 1);
          return;
        }
        attrs := attrs[key := r.value];
        i := i + 1;
      }
      assert keys[..i] == keys;
    }

    /**
     * `set(key, value)`: the attribute is written; the prepared value is
     * stored and the change emitted, unless preparing it raises. A new
     * `label_colors` value is no longer the class-level default dict.
     */
    method Set(key: string, value: Attr) returns (err: Option<Exception>)
      modifies this
      ensures attrs == old(attrs)[key := value]
      ensures match Prepare(value, Some(key))
        case Ok(stored) => store == old(store)[key := stored] && emitted == old(emitted) + [(key, value)] && err == None
        case Err(e) => store == old(store) && emitted == old(emitted) && err == Some(e)
      ensures sharedLabelDefault == old(sharedLabelDefault)
      ensures labelsAliased == (old(labelsAliased) && key != "label_colors")
      ensures old(AliasConsistent()) ==> AliasConsistent()
    {
      err := Publish(key, value);
      if key == "label_colors" {
        labelsAliased := false;
      }
    }

    /**
     * The body of `set`: write, store and emit. The label methods pass the
     * table they changed in place, so whether it is the class-level dict
     * does not change.
     */
    method Publish(key: string, value: Attr) returns (err: Option<Exception>)
      modifies this
      ensures attrs == old(attrs)[key := value]
      ensures match Prepare(value, Some(key))
        case Ok(stored) => store == old(store)[key := stored] && emitted == old(emitted) + [(key, value)] && err == None
        case Err(e) => store == old(store) && emitted == old(emitted) && err == Some(e)
      ensures sharedLabelDefault == old(sharedLabelDefault) && labelsAliased == old(labelsAliased)
    {
      attrs := attrs[key := value];
      var stored := Prepare(value, Some(key));
      if stored.Err? {
        return Some(stored.error);
      }
      store := store[key := stored.value];
      emitted := emitted + [(key, value)];
      err := None;
    }

    /**
     * `reset()`: the store is cleared, then every default is set, stored and
     * emitted in order. The label table set is the class-level default dict
     * itself, with whatever the label methods have put into it since.
     */
    method Reset()
      modifies this
      ensures attrs == old(attrs) + DefaultMap(ResetDefaults(cwd, old(sharedLabelDefault)))
      ensures store == StoredDefaults(ResetDefaults(cwd, old(sharedLabelDefault)))
      ensures emitted == old(emitted) + ResetDefaults(cwd, old(sharedLabelDefault))
      ensures sharedLabelDefault == old(sharedLabelDefault) && labelsAliased
      ensures "label_colors" in attrs && attrs["label_colors"] == Val(Dict(sharedLabelDefault))
      ensures "plot_theme" in attrs && attrs["plot_theme"] == Val(PlotLight)
      ensures AliasConsistent()
    {
      store := map[];
      SetAll(ResetDefaults(cwd, sharedLabelDefault));
      labelsAliased := true;
      ResetDefaultsAt(cwd, sharedLabelDefault, 0);
      ResetDefaultsAt(cwd, sharedLabelDefault, 1);
    }

    /** The loop of `reset`: each pair is set, stored and emitted in order. */
    method SetAll(defaults: seq<(string, Attr)>)
      modifies this
      ensures attrs == old(attrs) + DefaultMap(defaults)
      ensures store == old(store) + StoredDefaults(defaults)
      ensures emitted == old(emitted) + defaults
      ensures sharedLabelDefault == old(sharedLabelDefault) && labelsAliased == old(labelsAliased)
    {
      var i := 0;
      while i < |defaults|
        invariant 0 <= i <= |defaults|
        invariant attrs == old(attrs) + DefaultMap(defaults[..i])
        invariant store == old(store) + StoredDefaults(defaults[..i])
        invariant emitted == old(emitted) + defaults[..i]
        invariant sharedLabelDefault == old(sharedLabelDefault) && labelsAliased == old(labelsAliased)
      {
        assert defaults[..i + 1][..i] == defaults[..i];
        var (key, value) := defaults[i];
        var stored := Prepare(value, None).value;
        UpdateAfterUnion(attrs, old(attrs), DefaultMap(defaults[..i]), key, value);
        UpdateAfterUnion(store, old(store), StoredDefaults(defaults[..i]), key, stored);
        attrs := attrs[key := value];
        store := store[key := stored];
        emitted := emitted + [(key, value)];
        i := i + 1;
      }
      assert defaults[..i] == defaults;
    }

    /** The plot theme's `NAME`: `plot_theme["NAME"]`. */
    function ThemeName(): Result<Value, Exception>
      reads this
    {
      if "plot_theme" !in attrs then Err(AttributeError)
      else
        var t := attrs["plot_theme"];
        if !(t.Val? && t.v.Dict?) then Err(TypeError)
        else match PyValue.Get(t.v.entries, "NAME")
          case Some(n) => Ok(n)
          case None => Err(KeyError)
    }

    /** The label table held in `label_colors`, when it is a dict. */
    predicate HasTable()
      reads this
    {
      "label_colors" in attrs && attrs["label_colors"].Val? && attrs["label_colors"].v.Dict?
    }

    /**
     * `get_label_color(label)`: the label is upper-cased; an unseen one gets
     * `generated` (the random light/dark pair) added to the table, without
     * storing or emitting; then the colour for the current theme is read.
     */
    method GetLabelColor(labelName: string, generated: Value) returns (r: Result<Color, Exception>)
      requires HasTable()
      modifies this
      ensures attrs == old(attrs)["label_colors" := Val(Dict(WithEntry(old(attrs["label_colors"].v.entries), PyText.Upper(labelName), generated)))]
      ensures store == old(store) && emitted == old(emitted)
      ensures r == (var name :- ThemeName(); ReadColor(attrs["label_colors"].v.entries, PyText.Upper(labelName), name))
      ensures labelsAliased == old(labelsAliased)
      ensures sharedLabelDefault == if labelsAliased then attrs["label_colors"].v.entries else old(sharedLabelDefault)
      ensures old(AliasConsistent()) ==> AliasConsistent()
    {
      var key := PyText.Upper(labelName);
      var table := attrs["label_colors"].v.entries;
      if !Has(table, key) {
        table := SetItem(table, key, generated);
      }
      assert table == WithEntry(old(attrs["label_colors"].v.entries), key, generated);
      attrs := attrs["label_colors" := Val(Dict(table))];
      if labelsAliased {
        sharedLabelDefault := table;
      }
      var name := ThemeName();
      if name.Err? {
        return Err(name.error);
      }
      r := ReadColor(table, key, name.value);
    }

    /** `set_label_color(label, color)`: the upper-cased label's entry gets the colour for the current theme and its inverse for the other, then the table is set. */
    method SetLabelColor(labelName: string, color: Color) returns (err: Option<Exception>)
      requires HasTable() && ValidColor(color)
      modifies this
      ensures old(ThemeName()).Err? ==> attrs == old(attrs) && store == old(store) && emitted == old(emitted) && err == Some(old(ThemeName()).error)
      ensures old(ThemeName()).Ok? ==>
        var table := SetItem(old(attrs["label_colors"].v.entries), PyText.Upper(labelName), ColorEntry(old(ThemeName()).value, color));
        attrs == old(attrs)["label_colors" := Val(Dict(table))]
        && match Prepare(Val(Dict(table)), Some("label_colors"))
          case Ok(stored) => store == old(store)["label_colors" := stored] && emitted == old(emitted) + [("label_colors", Val(Dict(table)))] && err == None
          case Err(e) => store == old(store) && emitted == old(emitted) && err == Some(e)
      ensures labelsAliased == old(labelsAliased)
      ensures sharedLabelDefault == if labelsAliased && old(ThemeName()).Ok? then attrs["label_colors"].v.entries else old(sharedLabelDefault)
      ensures old(AliasConsistent()) ==> AliasConsistent()
    {
      var name := ThemeName();
      if name.Err? {
        return Some(name.error);
      }
      var table := SetItem(attrs["label_colors"].v.entries, PyText.Upper(labelName), ColorEntry(name.value, color));
      if labelsAliased {
        sharedLabelDefault := table;
      }
      err := Publish("label_colors", Val(Dict(table)));
    }

    /** `rename_label(old, new)`: the entry moves to the upper-cased new name; a missing old name raises KeyError and changes nothing. */
    method RenameLabel(from: string, to: string) returns (err: Option<Exception>)
      requires HasTable()
      modifies this
      ensures var table := old(attrs["label_colors"].v.entries);
        var key := PyText.Upper(from);
        if !Has(table, key) then attrs == old(attrs) && store == old(store) && emitted == old(emitted) && err == Some(KeyError)
        else
          var table' := SetItem(Remove(table, key), PyText.Upper(to), PyValue.Get(table, key).value);
          attrs == old(attrs)["label_colors" := Val(Dict(table'))]
          && match Prepare(Val(Dict(table')), Some("label_colors"))
            case Ok(stored) => store == old(store)["label_colors" := stored] && emitted == old(emitted) + [("label_colors", Val(Dict(table')))] && err == None
            case Err(e) => store == old(store) && emitted == old(emitted) && err == Some(e)
      ensures labelsAliased == old(labelsAliased)
      ensures sharedLabelDefault ==
        if labelsAliased && Has(old(attrs["label_colors"].v.entries), PyText.Upper(from)) then attrs["label_colors"].v.entries
        else old(sharedLabelDefault)
      ensures old(AliasConsistent()) ==> AliasConsistent()
    {
      var table := attrs["label_colors"].v.entries;
      var key := PyText.Upper(from);
      var entry := PyValue.Get(table, key);
      if entry.None? {
        return Some(KeyError);
      }
      var table' := SetItem(Remove(table, key), PyText.Upper(to), entry.value);
      if labelsAliased {
        sharedLabelDefault := table';
      }
      err := Publish("label_colors", Val(Dict(table')));
    }

    /** `delete_label(label)`: the upper-cased label is removed if present, and the table is set either way. */
    method DeleteLabel(labelName: string) returns (err: Option<Exception>)
      requires HasTable()
      modifies this
      ensures var table' := Remove(old(attrs["label_colors"].v.entries), PyText.Upper(labelName));
        attrs == old(attrs)["label_colors" := Val(Dict(table'))]
        && match Prepare(Val(Dict(table')), Some("label_colors"))
          case Ok(stored) => store == old(store)["label_colors" := stored] && emitted == old(emitted) + [("label_colors", Val(Dict(table')))] && err == None
          case Err(e) => store == old(store) && emitted == old(emitted) && err == Some(e)
      ensures labelsAliased == old(labelsAliased)
      ensures sharedLabelDefault == if labelsAliased then attrs["label_colors"].v.entries else old(sharedLabelDefault)
      ensures old(AliasConsistent()) ==> AliasConsistent()
    {
      var table' := Remove(attrs["label_colors"].v.entries, PyText.Upper(labelName));
      if labelsAliased {
        sharedLabelDefault := table';
      }
      err := Publish("label_colors", Val(Dict(table')));
    }
  }

  /**
   * `reset(); set_label_color("a", c); reset()` leaves label `A` in the
   * table: the first `reset` makes `label_colors` the class-level default
   * dict, `set_label_color` writes into it, and the second `reset` sets that
   * same dict again.
   */
  method ResetAfterLabelEdit(s: Settings, color: Color)
    requires ValidColor(color)
    modifies s
    ensures "label_colors" in s.attrs && s.attrs["label_colors"].Val? && s.attrs["label_colors"].v.Dict?
    ensures Has(s.attrs["label_colors"].v.entries, "A") && Has(s.sharedLabelDefault, "A")
  {
    s.Reset();
    assert PyValue.Get(PlotLight.entries, "NAME") == Some(Str("LIGHT"));
    assert PyText.Upper("a") == "A";
    var err := s.SetLabelColor("a", color);
    s.Reset();
  }

  /** `DEFAULT_SETTINGS` as `reset` sees it: the label table is the class-level dict with its current contents. */
  function ResetDefaults(cwd: string, shared: seq<(string, Value)>): (r: seq<(string, Attr)>)
    ensures |r| == |Defaults(cwd)| && r[1] == ("label_colors", Val(Dict(shared)))
    ensures forall i :: 0 <= i < |r| && i != 1 ==> r[i] == Defaults(cwd)[i]
  {
    Defaults(cwd)[1 := ("label_colors", Val(Dict(shared)))]
  }

  /** After `reset`, the first two keys hold the light theme and the class-level label dict. */
  lemma ResetDefaultsAt(cwd: string, shared: seq<(string, Value)>, i: nat)
    requires i < 2
    ensures ResetDefaults(cwd, shared)[i].0 in DefaultMap(ResetDefaults(cwd, shared))
    ensures DefaultMap(ResetDefaults(cwd, shared))[ResetDefaults(cwd, shared)[i].0] == ResetDefaults(cwd, shared)[i].1
  {
    var r := ResetDefaults(cwd, shared);
    DefaultMapLast(r, i);
  }

  /** A key that no later pair repeats keeps its own value in the map. */
  lemma {:induction false} DefaultMapLast(defaults: seq<(string, Attr)>, i: nat)
    requires i < |defaults| && forall j :: i < j < |defaults| ==> defaults[j].0 != defaults[i].0
    ensures defaults[i].0 in DefaultMap(defaults) && DefaultMap(defaults)[defaults[i].0] == defaults[i].1
    decreases |defaults|
  {
    var n := |defaults| - 1;
    if i < n {
      assert forall j :: i < j < n ==> defaults[..n][j] == defaults[j];
      DefaultMapLast(defaults[..n], i);
    }
  }

  /** The in-memory defaults, by key. */
  function DefaultMap(defaults: seq<(string, Attr)>): map<string, Attr>
    decreases |defaults|
  {
    if |defaults| == 0 then map[]
    else DefaultMap(defaults[..|defaults| - 1])[defaults[|defaults| - 1].0 := defaults[|defaults| - 1].1]
  }

  /** Writing one more key after a union is the union with that key written. */
  lemma UpdateAfterUnion(m: map<string, Attr>, base: map<string, Attr>, added: map<string, Attr>, k: string, v: Attr)
    requires m == base + added
    ensures m[k := v] == base + added[k := v]
  {
  }

  /** The QSettings contents right after `reset`. */
  function StoredDefaults(defaults: seq<(string, Attr)>): map<string, Attr>
    decreases |defaults|
  {
    if |defaults| == 0 then map[]
    else StoredDefaults(defaults[..|defaults| - 1])[defaults[|defaults| - 1].0 := Prepare(defaults[|defaults| - 1].1, None).value]
  }
}
