/**
 * The control specification loader (software/cs/gui/epg_board/SpecLoader.py):
 * it turns the YAML document describing the board's engineering controls,
 * their relations, the entomologist (default view) controls and the UI
 * orders into typed records, raising ValueError on anything malformed.
 *
 * The document is taken as already loaded (`yaml.safe_load` and file access
 * are left out); an exception is an `Err`. The engineering keys are the
 * members of `EPGControlKey` (software/cs/gui/epg_board/EPGControlKey.py).
 */
module SpecLoader {
  import opened Wrappers
  import PyText
  import opened PyValue

  // ---------------------------------------------------------------------------
  // Keys and enumerations

  /** The members of `EPGControlKey`, in declaration order. */
  datatype ControlKey =
    | InputResistance | Pga1 | Pga2 | SignalChainAmplification | SignalChainOffset
    | DdsAmplification | DdsOffset
    | DigipotChannel0 | DigipotChannel1 | DigipotChannel2 | DigipotChannel3
    | ExcitationFrequency

  /** `key.name`. */
  function KeyName(k: ControlKey): string
  {
    match k
    case InputResistance => "INPUT_RESISTANCE"
    case Pga1 => "PGA_1"
    case Pga2 => "PGA_2"
    case SignalChainAmplification => "SIGNAL_CHAIN_AMPLIFICATION"
    case SignalChainOffset => "SIGNAL_CHAIN_OFFSET"
    case DdsAmplification => "DDS_AMPLIFICATION"
    case DdsOffset => "DDS_OFFSET"
    case DigipotChannel0 => "DIGIPOT_CHANNEL_0"
    case DigipotChannel1 => "DIGIPOT_CHANNEL_1"
    case DigipotChannel2 => "DIGIPOT_CHANNEL_2"
    case DigipotChannel3 => "DIGIPOT_CHANNEL_3"
    case ExcitationFrequency => "EXCITATION_FREQUENCY"
  }

  /** `EPGControlKey[name]`: the member of that name, if there is one. */
  function KeyOfName(name: string): (k: Option<ControlKey>)
    ensures k.Some? ==> KeyName(k.value) == name
  {
    if name == "INPUT_RESISTANCE" then Some(InputResistance)
    else if name == "PGA_1" then Some(Pga1)
    else if name == "PGA_2" then Some(Pga2)
    else if name == "SIGNAL_CHAIN_AMPLIFICATION" then Some(SignalChainAmplification)
    else if name == "SIGNAL_CHAIN_OFFSET" then Some(SignalChainOffset)
    else if name == "DDS_AMPLIFICATION" then Some(DdsAmplification)
    else if name == "DDS_OFFSET" then Some(DdsOffset)
    else if name == "DIGIPOT_CHANNEL_0" then Some(DigipotChannel0)
    else if name == "DIGIPOT_CHANNEL_1" then Some(DigipotChannel1)
    else if name == "DIGIPOT_CHANNEL_2" then Some(DigipotChannel2)
    else if name == "DIGIPOT_CHANNEL_3" then Some(DigipotChannel3)
    else if name == "EXCITATION_FREQUENCY" then Some(ExcitationFrequency)
    else None
  }

  /** Every member is found by its own name, so distinct members have distinct names. */
  lemma KeyNameRoundTrip(k: ControlKey)
    ensures KeyOfName(KeyName(k)) == Some(k)
  {
  }

  /** `_coerce_key`: a member name gives the member; any other value is a ValueError (TypeError when unhashable). */
  function CoerceKey(x: Value): (r: Result<ControlKey, Exception>)
    ensures r.Ok? <==> x.Str? && KeyOfName(x.s).Some?
    ensures r.Ok? ==> KeyName(r.value) == x.s
  {
    match x
    case Str(s) => if KeyOfName(s).Some? then Ok(KeyOfName(s).value) else Err(ValueError)
    case List(_) => Err(TypeError)
    case Dict(_) => Err(TypeError)
    case _ => Err(ValueError)
  }

  /** `[_coerce_key(x) for x in xs]`: the first failure, or every key in order. */
  function CoerceKeys(xs: seq<Value>): (r: Result<seq<ControlKey>, Exception>)
    ensures r.Ok? <==> forall i :: 0 <= i < |xs| ==> CoerceKey(xs[i]).Ok?
    ensures r.Ok? ==> |r.value| == |xs| && forall i :: 0 <= i < |xs| ==> r.value[i] == CoerceKey(xs[i]).value
  {
    if |xs| == 0 then Ok([])
    else
      var k :- CoerceKey(xs[0]);
      var rest :- CoerceKeys(xs[1..]);
      Ok([k] + rest)
  }

  function TypeName(t: PyType): string
  {
    match t
    case IntType => "int"
    case FloatType => "float"
    case StrType => "str"
  }

  /** `_coerce_type`: exactly the names `int`, `float` and `str`. */
  function CoerceType(name: string): (r: Result<PyType, Exception>)
  {
    if name == "int" then Ok(IntType)
    else if name == "float" then Ok(FloatType)
    else if name == "str" then Ok(StrType)
    else Err(ValueError)
  }

  /** `_coerce_type` accepts a name exactly when it is the name of a type, and gives that type. */
  lemma CoerceTypeExactly(name: string, t: PyType)
    ensures CoerceType(TypeName(t)) == Ok(t)
    ensures CoerceType(name).Ok? ==> TypeName(CoerceType(name).value) == name
    ensures CoerceType(name).Err? ==> CoerceType(name).error == ValueError
  {
  }

  datatype CurrentType = AC | DC

  function CurrentTypeName(c: CurrentType): string
  {
    match c
    case AC => "AC"
    case DC => "DC"
  }

  /** `_coerce_current_type`: exactly `AC` and `DC`. */
  function CoerceCurrentType(name: string): (r: Result<CurrentType, Exception>)
  {
    if name == "AC" then Ok(AC) else if name == "DC" then Ok(DC) else Err(ValueError)
  }

  lemma CoerceCurrentTypeExactly(name: string, c: CurrentType)
    ensures CoerceCurrentType(CurrentTypeName(c)) == Ok(c)
    ensures CoerceCurrentType(name).Ok? ==> CurrentTypeName(CoerceCurrentType(name).value) == name
    ensures CoerceCurrentType(name).Err? ==> CoerceCurrentType(name).error == ValueError
  {
  }

  datatype WidgetType = Slider | ComboBox | ToggleSwitch

  /** The widget type a `widget_type` value names, compared with `==` against the three names. */
  function WidgetOf(v: Value): Option<WidgetType>
  {
    if v == Str("slider") then Some(Slider)
    else if v == Str("combo_box") then Some(ComboBox)
    else if v == Str("toggle_switch") then Some(ToggleSwitch)
    else None
  }

  // ---------------------------------------------------------------------------
  // Validators

  /** A slider's bounds as the loader leaves them: both numbers (a bool counts), and `min <= max`. */
  predicate SliderBounds(minValue: Value, maxValue: Value)
  {
    IsNumber(minValue) && IsNumber(maxValue) && Number(minValue) <= Number(maxValue)
  }

  /** `_validate_slider_block`. */
  function ValidateSlider(node: seq<(string, Value)>): Result<(), Exception>
  {
    if !Has(node, "min_value") || !Has(node, "max_value") then Err(ValueError)
    else
      var lo, hi := Get(node, "min_value").value, Get(node, "max_value").value;
      if !IsNumber(lo) || !IsNumber(hi) then Err(ValueError)
      else if Number(lo) > Number(hi) then Err(ValueError)
      else Ok(())
  }

  /** A slider block passes exactly when both bounds are present numbers with min <= max; equal bounds pass. */
  lemma SliderBlockAccepted(node: seq<(string, Value)>)
    ensures ValidateSlider(node).Ok? <==>
      Has(node, "min_value") && Has(node, "max_value")
      && SliderBounds(GetOr(node, "min_value", PyNone), GetOr(node, "max_value", PyNone))
    ensures ValidateSlider(node).Err? ==> ValidateSlider(node).error == ValueError
  {
  }

  /** A combo box's choices as the loader leaves them: a non-empty list. */
  predicate ComboChoices(choices: Value)
  {
    choices.List? && |choices.items| > 0
  }

  /** `_validate_combo_block`. */
  function ValidateCombo(node: seq<(string, Value)>): (r: Result<(), Exception>)
    ensures r.Ok? <==> ComboChoices(GetOr(node, "choices", PyNone))
  {
    if !Has(node, "choices") || !Get(node, "choices").value.List? || |Get(node, "choices").value.items| == 0 then
      Err(ValueError)
    else Ok(())
  }

  /** The per-widget check: sliders and combo boxes are validated, toggles pass, any other widget type is a ValueError. */
  function ValidateWidget(w: Option<WidgetType>, node: seq<(string, Value)>): (r: Result<WidgetType, Exception>)
    ensures r.Ok? <==> w.Some? && (w.value == Slider ==> ValidateSlider(node).Ok?) && (w.value == ComboBox ==> ValidateCombo(node).Ok?)
    ensures r.Ok? ==> r.value == w.value
    ensures r.Ok? && r.value == Slider ==> SliderBounds(GetOr(node, "min_value", PyNone), GetOr(node, "max_value", PyNone))
    ensures r.Ok? && r.value == ComboBox ==> ComboChoices(GetOr(node, "choices", PyNone))
  {
    SliderBlockAccepted(node);
    match w
    case Some(Slider) => (var _ :- ValidateSlider(node); Ok(Slider))
    case Some(ComboBox) => (var _ :- ValidateCombo(node); Ok(ComboBox))
    case Some(ToggleSwitch) => Ok(ToggleSwitch)
    case None => Err(ValueError)
  }

  /** `_default_unit`: None becomes the empty string, anything else is kept as it is. */
  function DefaultUnit(v: Value): (u: Value)
    ensures v.PyNone? ==> u == Str("")
    ensures !v.PyNone? ==> u == v
  {
    if v.PyNone? then Str("") else v
  }

  /** The label of a control without one: underscores become spaces, then title case. */
  function DefaultLabel(keyText: string): string
  {
    PyText.Title(PyText.ReplaceChar(keyText, '_', ' '))
  }

  // ---------------------------------------------------------------------------
  // Engineering controls

  datatype EngineeringControl = EngineeringControl(
    key: ControlKey, labelText: string, unit: Value, pytype: PyType, widgetType: WidgetType,
    defaultValue: Value, minValue: Value, maxValue: Value, stepSize: Value,
    decimalPlaces: int, choices: Value)

  /** What every parsed control satisfies. */
  predicate WellFormedControl(c: EngineeringControl)
  {
    && (c.widgetType == Slider ==> SliderBounds(c.minValue, c.maxValue))
    && (c.widgetType == ComboBox ==> ComboChoices(c.choices))
  }

  /** One entry of `ENGINEERING_CONTROL_SPEC`, as the loop body of `_parse_engineering_controls` builds it. */
  function ParseEngineeringControl(keyText: string, node: Value, py: Builtins): (r: Result<EngineeringControl, Exception>)
    ensures r.Ok? ==> node.Dict? && WellFormedControl(r.value) && KeyName(r.value.key) == keyText
    ensures r.Ok? && !Has(node.entries, "label") ==> r.value.labelText == DefaultLabel(keyText)
    ensures r.Ok? && (!Has(node.entries, "unit") || GetOr(node.entries, "unit", Str("")).PyNone?) ==> r.value.unit == Str("")
  {
    var key :- CoerceKey(Str(keyText));
    if !node.Dict? then Err(TypeError)
    else
      var e := node.entries;
      if !Has(e, "widget_type") then Err(KeyError)
      else if !Has(e, "type") then Err(KeyError)
      else
        var pytype :- CoerceType(ToStr(Get(e, "type").value, py));
        var labelText := ToStr(GetOr(e, "label", Str(DefaultLabel(keyText))), py);
        var unit := DefaultUnit(GetOr(e, "unit", Str("")));
        var widget :- ValidateWidget(WidgetOf(Get(e, "widget_type").value), e);
        var places :- ToInt(GetOr(e, "decimal_places", Int(0)));
        Ok(EngineeringControl(key, labelText, unit, pytype, widget,
          GetOr(e, "default_value", PyNone), GetOr(e, "min_value", PyNone), GetOr(e, "max_value", PyNone),
          GetOr(e, "step_size", PyNone), places, GetOr(e, "choices", PyNone)))
  }

  /** An unknown `widget_type` is a ValueError whatever else the node holds. */
  lemma UnknownWidgetRejected(keyText: string, node: Value, py: Builtins)
    requires node.Dict? && Has(node.entries, "widget_type") && WidgetOf(Get(node.entries, "widget_type").value).None?
    ensures ParseEngineeringControl(keyText, node, py).Err?
  {
  }

  /** Each control stored under its own key and well formed. */
  predicate ControlsValid(m: map<ControlKey, EngineeringControl>)
  {
    forall k :: k in m ==> m[k].key == k && WellFormedControl(m[k])
  }

  /** The loop of `_parse_engineering_controls`: entries in order, each stored under its key. */
  function ParseControlEntries(entries: seq<(string, Value)>, acc: map<ControlKey, EngineeringControl>, py: Builtins)
    : (r: Result<map<ControlKey, EngineeringControl>, Exception>)
    requires ControlsValid(acc)
    ensures r.Ok? ==> ControlsValid(r.value)
    decreases |entries|
  {
    if |entries| == 0 then Ok(acc)
    else
      var c :- ParseEngineeringControl(entries[0].0, entries[0].1, py);
      ParseControlEntries(entries[1..], acc[c.key := c], py)
  }

  /** The parsed map keeps what it started with, holds a control for every entry's key, and nothing else. */
  lemma {:induction false} ParsedControlKeys(entries: seq<(string, Value)>, acc: map<ControlKey, EngineeringControl>, py: Builtins)
    requires ControlsValid(acc)
    ensures var r := ParseControlEntries(entries, acc, py);
      r.Ok? ==>
        (forall k :: k in acc ==> k in r.value)
        && (forall i :: 0 <= i < |entries| ==> KeyOfName(entries[i].0).Some? && KeyOfName(entries[i].0).value in r.value)
        && (forall k :: k in r.value ==> k in acc || KeyName(k) in Keys(entries))
    decreases |entries|
  {
    if |entries| > 0 {
      var pc := ParseEngineeringControl(entries[0].0, entries[0].1, py);
      if pc.Ok? {
        var c := pc.value;
        KeyNameRoundTrip(c.key);
        assert Keys(entries) == [entries[0].0] + Keys(entries[1..]);
        ParsedControlKeys(entries[1..], acc[c.key := c], py);
        var r := ParseControlEntries(entries, acc, py);
        if r.Ok? {
          assert r == ParseControlEntries(entries[1..], acc[c.key := c], py);
          forall i | 0 <= i < |entries|
            ensures KeyOfName(entries[i].0).Some? && KeyOfName(entries[i].0).value in r.value
          {
            if i > 0 { assert entries[i] == entries[1..][i - 1]; }
          }
        }
      }
    }
  }

  /** `_parse_engineering_controls`: the section must be present and a mapping. */
  function ParseEngineeringControls(doc: seq<(string, Value)>, py: Builtins): (r: Result<map<ControlKey, EngineeringControl>, Exception>)
    ensures r.Ok? ==> ControlsValid(r.value)
  {
    if !Has(doc, "ENGINEERING_CONTROL_SPEC") then Err(KeyError)
    else
      var raw := Get(doc, "ENGINEERING_CONTROL_SPEC").value;
      if !raw.Dict? then Err(AttributeError) else ParseControlEntries(raw.entries, map[], py)
  }

  // ---------------------------------------------------------------------------
  // Relations

  datatype TargetFormula = TargetFormula(key: ControlKey, formula: string)

  datatype ControlRelation = ControlRelation(name: string, triggers: seq<ControlKey>, targets: seq<TargetFormula>)

  /** A formula the loader accepts: a string that is not blank. */
  predicate FormulaText(v: Value)
  {
    v.Str? && PyText.Strip(v.s) != ""
  }

  /** One item of `targets`. */
  function ParseTarget(t: Value): (r: Result<TargetFormula, Exception>)
    ensures r.Ok? <==> t.Dict? && Has(t.entries, "key") && CoerceKey(Get(t.entries, "key").value).Ok?
                       && FormulaText(GetOr(t.entries, "formula", PyNone))
  {
    if !t.Dict? then Err(ValueError)
    else if !Has(t.entries, "key") then Err(KeyError)
    else
      var key :- CoerceKey(Get(t.entries, "key").value);
      var formula := GetOr(t.entries, "formula", PyNone);
      if !formula.Str? || PyText.Strip(formula.s) == "" then Err(ValueError)
      else Ok(TargetFormula(key, formula.s))
  }

  function ParseTargets(ts: seq<Value>): (r: Result<seq<TargetFormula>, Exception>)
    ensures r.Ok? <==> forall i :: 0 <= i < |ts| ==> ParseTarget(ts[i]).Ok?
    ensures r.Ok? ==> |r.value| == |ts| && forall i :: 0 <= i < |ts| ==> r.value[i] == ParseTarget(ts[i]).value
  {
    if |ts| == 0 then Ok([])
    else
      var t :- ParseTarget(ts[0]);
      var rest :- ParseTargets(ts[1..]);
      Ok([t] + rest)
  }

  /** `_parse_relation_item`. */
  function ParseRelationItem(node: Value, py: Builtins): (r: Result<ControlRelation, Exception>)
    ensures r.Ok? ==> r.value.name != "" && |r.value.targets| > 0
  {
    if !node.Dict? then Err(AttributeError)
    else
      var e := node.entries;
      var name := ToStr(GetOr(e, "name", Str("")), py);
      if name == "" then Err(ValueError)
      else
        var triggerItems :- Iterate(Or(GetOr(e, "triggers", PyNone), List([])));
        var triggers :- CoerceKeys(triggerItems);
        var targetsRaw := GetOr(e, "targets", PyNone);
        if !targetsRaw.List? || |targetsRaw.items| == 0 then Err(ValueError)
        else
          var targets :- ParseTargets(targetsRaw.items);
          Ok(ControlRelation(name, triggers, targets))
  }

  /** `str()` of a float, list or dict is never empty, as in Python. */
  ghost predicate TextNonEmpty(py: Builtins)
  {
    forall v :: py.text(v) != ""
  }

  /**
   * A relation item is accepted exactly when it is a mapping whose name is not
   * absent or the empty string, whose triggers (when truthy) are key names, and
   * whose targets form a non-empty list of mappings, each with a key and a
   * non-blank formula. The result keeps the targets in order, and missing or
   * empty triggers give none.
   */
  lemma RelationItemAccepted(node: Value, py: Builtins)
    requires TextNonEmpty(py)
    ensures ParseRelationItem(node, py).Ok? <==>
      && node.Dict?
      && GetOr(node.entries, "name", Str("")) != Str("")
      && (var trig := Or(GetOr(node.entries, "triggers", PyNone), List([]));
          Iterate(trig).Ok? && CoerceKeys(Iterate(trig).value).Ok?)
      && (var ts := GetOr(node.entries, "targets", PyNone);
          ts.List? && |ts.items| > 0 && forall i :: 0 <= i < |ts.items| ==> ParseTarget(ts.items[i]).Ok?)
    ensures ParseRelationItem(node, py).Ok? ==>
      var rel := ParseRelationItem(node, py).value;
      && rel.name != "" && |rel.targets| > 0
      && (forall i :: 0 <= i < |rel.targets| ==> PyText.Strip(rel.targets[i].formula) != "")
      && (!Truthy(GetOr(node.entries, "triggers", PyNone)) ==> rel.triggers == [])
  {
    if node.Dict? {
      var e := node.entries;
      var v := GetOr(e, "name", Str(""));
      assert ToStr(v, py) == "" <==> v == Str("") by {
        if v.Int? {
          assert PyText.IntToDecimal(v.i) != "";
        }
      }
      if ParseRelationItem(node, py).Ok? {
        var rel := ParseRelationItem(node, py).value;
        var ts := GetOr(e, "targets", PyNone).items;
        forall i | 0 <= i < |rel.targets|
          ensures PyText.Strip(rel.targets[i].formula) != ""
        {
          assert rel.targets[i] == ParseTarget(ts[i]).value;
        }
      }
    }
  }

  /** `_parse_engineering_relations`: the section, when truthy, must be a list. */
  function ParseEngineeringRelations(doc: seq<(string, Value)>, py: Builtins): Result<seq<ControlRelation>, Exception>
  {
    var items := Or(GetOr(doc, "ENGINEERING_RELATIONS", PyNone), List([]));
    if !items.List? then Err(ValueError) else ParseRelationItems(items.items, py)
  }

  function ParseRelationItems(items: seq<Value>, py: Builtins): (r: Result<seq<ControlRelation>, Exception>)
    ensures r.Ok? <==> forall i :: 0 <= i < |items| ==> ParseRelationItem(items[i], py).Ok?
    ensures r.Ok? ==> |r.value| == |items| && forall i :: 0 <= i < |items| ==> r.value[i] == ParseRelationItem(items[i], py).value
  {
    if |items| == 0 then Ok([])
    else
      var rel :- ParseRelationItem(items[0], py);
      var rest :- ParseRelationItems(items[1..], py);
      Ok([rel] + rest)
  }

  /** `_parse_engineering_ui_order`. */
  function ParseEngineeringUiOrder(doc: seq<(string, Value)>): Result<seq<ControlKey>, Exception>
  {
    var items :- Iterate(Or(GetOr(doc, "ENGINEERING_UI_ORDER", PyNone), List([])));
    CoerceKeys(items)
  }

  // ---------------------------------------------------------------------------
  // Mappings and default (entomologist) controls

  datatype AffineMapping = AffineMapping(a: real, b: real, roundToInt: bool)

  /** `_parse_affine_mapping`: `a` defaults to 1, `b` to 0, `round_to_int` to false. */
  function ParseAffineMapping(d: Value, py: Builtins): (r: Result<AffineMapping, Exception>)
    ensures d == Dict([]) ==> r == Ok(AffineMapping(1.0, 0.0, false))
  {
    if !d.Dict? then Err(AttributeError)
    else
      var a :- ToFloat(GetOr(d.entries, "a", Float(1.0)), py);
      var b :- ToFloat(GetOr(d.entries, "b", Float(0.0)), py);
      Ok(AffineMapping(a, b, Truthy(GetOr(d.entries, "round_to_int", Bool(false)))))
  }

  function ParseMappingEntries(entries: seq<(string, Value)>, acc: map<string, AffineMapping>, py: Builtins)
    : Result<map<string, AffineMapping>, Exception>
  {
    if |entries| == 0 then Ok(acc)
    else
      var m :- ParseAffineMapping(entries[0].1, py);
      ParseMappingEntries(entries[1..], acc[entries[0].0 := m], py)
  }

  /** `_parse_mappings`. */
  function ParseMappings(doc: seq<(string, Value)>, py: Builtins): Result<map<string, AffineMapping>, Exception>
  {
    var raw := Or(GetOr(doc, "MAPPINGS", PyNone), Dict([]));
    if !raw.Dict? then Err(AttributeError) else ParseMappingEntries(raw.entries, map[], py)
  }

  datatype DefaultCurrentTypeConfig = DefaultCurrentTypeConfig(
    unit: Value, pytype: PyType, widgetType: WidgetType,
    minValue: Value, maxValue: Value, stepSize: Value, decimalPlaces: int, choices: Value,
    targetKey: Option<ControlKey>, mapping: Option<AffineMapping>, defaultValue: Value)

  datatype CurrentChangeEffects = CurrentChangeEffects(setEngineering: map<ControlKey, Value>, resetDefaultControls: seq<Value>)

  datatype DefaultControl = DefaultControl(
    name: string, labelValue: Value,
    currentTypes: map<CurrentType, DefaultCurrentTypeConfig>,
    onChange: map<CurrentType, CurrentChangeEffects>)

  /** `w in s` for strings. */
  predicate Contains(s: string, w: string)
  {
    exists i :: 0 <= i <= |s| - |w| && OccursAt(s, w, i)
  }

  predicate OccursAt(s: string, w: string, i: int)
  {
    0 <= i && i + |w| <= |s| && s[i..i + |w|] == w
  }

  /** `name in t` where `t` is the `target` value: dictionary keys, list items, substrings; anything else raises TypeError. */
  function Member(t: Value, name: string): Result<bool, Exception>
  {
    match t
    case Dict(e) => Ok(Has(e, name))
    case List(items) => Ok(exists i :: 0 <= i < |items| && Equal(items[i], Str(name)))
    case Str(s) => Ok(Contains(s, name))
    case _ => Err(TypeError)
  }

  /** `t[name]` after a successful `name in t`: only a dictionary can be indexed by a string. */
  function Index(t: Value, name: string): Result<Value, Exception>
  {
    if t.Dict? && Has(t.entries, name) then Ok(Get(t.entries, name).value) else Err(TypeError)
  }

  /** The `target` block of a default control: its key and its mapping, each when given. */
  function ParseTargetBlock(cfg: seq<(string, Value)>, py: Builtins): Result<(Option<ControlKey>, Option<AffineMapping>), Exception>
  {
    if !Has(cfg, "target") || Get(cfg, "target").value.PyNone? then Ok((None, None))
    else
      var t := Get(cfg, "target").value;
      var hasKey :- Member(t, "key");
      var key :- if hasKey then (var k :- Index(t, "key"); var c :- CoerceKey(k); Ok(Some(c))) else Ok(None);
      var hasMapping :- Member(t, "mapping");
      var mappingNode :- if hasMapping then Index(t, "mapping") else Ok(PyNone);
      if mappingNode.PyNone? then Ok((key, None))
      else
        var m :- ParseAffineMapping(mappingNode, py);
        Ok((key, Some(m)))
  }

  /** One current type of a default control (the inner loop body of `_parse_default_controls`). */
  function ParseCurrentTypeConfig(cfgValue: Value, py: Builtins): Result<DefaultCurrentTypeConfig, Exception>
  {
    if !cfgValue.Dict? then Err(TypeError)
    else
      var cfg := cfgValue.entries;
      if !Has(cfg, "widget_type") then Err(KeyError)
      else if !Has(cfg, "type") then Err(KeyError)
      else
        var pytype :- CoerceType(ToStr(Get(cfg, "type").value, py));
        var unit := DefaultUnit(GetOr(cfg, "unit", Str("")));
        var widget :- ValidateWidget(WidgetOf(Get(cfg, "widget_type").value), cfg);
        var target :- ParseTargetBlock(cfg, py);
        var places :- ToInt(GetOr(cfg, "decimal_places", Int(0)));
        Ok(DefaultCurrentTypeConfig(unit, pytype, widget,
          GetOr(cfg, "min_value", PyNone), GetOr(cfg, "max_value", PyNone), GetOr(cfg, "step_size", PyNone),
          places, GetOr(cfg, "choices", PyNone), target.0, target.1, GetOr(cfg, "default_value", PyNone)))
  }

  function ParseCurrentTypes(entries: seq<(string, Value)>, acc: map<CurrentType, DefaultCurrentTypeConfig>, py: Builtins)
    : Result<map<CurrentType, DefaultCurrentTypeConfig>, Exception>
  {
    if |entries| == 0 then Ok(acc)
    else
      var ct :- CoerceCurrentType(entries[0].0);
      var cfg :- ParseCurrentTypeConfig(entries[0].1, py);
      ParseCurrentTypes(entries[1..], acc[ct := cfg], py)
  }

  /** `{_coerce_key(k): v for k, v in raw.items()}`. */
  function ParseSetEngineering(entries: seq<(string, Value)>, acc: map<ControlKey, Value>): Result<map<ControlKey, Value>, Exception>
  {
    if |entries| == 0 then Ok(acc)
    else
      var k :- CoerceKey(Str(entries[0].0));
      ParseSetEngineering(entries[1..], acc[k := entries[0].1])
  }

  /** One `on_change` effect of the current-type toggle. */
  function ParseEffects(eff: Value): Result<CurrentChangeEffects, Exception>
  {
    if !eff.Dict? then Err(AttributeError)
    else
      var raw := Or(GetOr(eff.entries, "set_engineering", Dict([])), Dict([]));
      if !raw.Dict? then Err(AttributeError)
      else
        var setEng :- ParseSetEngineering(raw.entries, map[]);
        var resets :- Iterate(Or(GetOr(eff.entries, "reset_default_controls", List([])), List([])));
        Ok(CurrentChangeEffects(setEng, resets))
  }

  function ParseOnChange(entries: seq<(string, Value)>, acc: map<CurrentType, CurrentChangeEffects>)
    : Result<map<CurrentType, CurrentChangeEffects>, Exception>
  {
    if |entries| == 0 then Ok(acc)
    else
      var ct :- CoerceCurrentType(entries[0].0);
      var eff :- ParseEffects(entries[0].1);
      ParseOnChange(entries[1..], acc[ct := eff])
  }

  /** `_parse_current_type_toggle`: the `CURRENT_TYPE` control has no current types of its own, only effects. */
  function ParseCurrentTypeToggle(node: Value): Result<DefaultControl, Exception>
  {
    if !node.Dict? then Err(AttributeError)
    else
      var labelText := GetOr(node.entries, "label", Str("Current Type"));
      var onChange := Or(GetOr(node.entries, "on_change", PyNone), Dict([]));
      if !onChange.Dict? then Err(AttributeError)
      else
        var effects :- ParseOnChange(onChange.entries, map[]);
        Ok(DefaultControl("CURRENT_TYPE", labelText, map[], effects))
  }

  /** One entry of `ENTOMOLOGIST_CONTROL_SPEC`. */
  function ParseDefaultControl(name: string, node: Value, py: Builtins): Result<DefaultControl, Exception>
  {
    if name == "CURRENT_TYPE" then ParseCurrentTypeToggle(node)
    else if !node.Dict? then Err(AttributeError)
    else
      var labelText := GetOr(node.entries, "label", Str(DefaultLabel(name)));
      var typesNode := Or(GetOr(node.entries, "current_types", PyNone), Dict([]));
      if !typesNode.Dict? then Err(AttributeError)
      else
        var types :- ParseCurrentTypes(typesNode.entries, map[], py);
        Ok(DefaultControl(name, labelText, types, map[]))
  }

  function ParseDefaultEntries(entries: seq<(string, Value)>, acc: map<string, DefaultControl>, py: Builtins)
    : (r: Result<map<string, DefaultControl>, Exception>)
    ensures r.Ok? ==> forall n :: n in acc ==> n in r.value
    ensures r.Ok? ==> forall i :: 0 <= i < |entries| ==> entries[i].0 in r.value
    ensures r.Ok? ==> forall n :: n in r.value ==> n in acc || n in Keys(entries)
    decreases |entries|
  {
    if |entries| == 0 then Ok(acc)
    else
      var c :- ParseDefaultControl(entries[0].0, entries[0].1, py);
      assert Keys(entries) == [entries[0].0] + Keys(entries[1..]);
      ParseDefaultEntries(entries[1..], acc[entries[0].0 := c], py)
  }

  /** `_parse_default_controls` (its `mappings` argument is not used by the source either). */
  function ParseDefaultControls(doc: seq<(string, Value)>, py: Builtins): Result<map<string, DefaultControl>, Exception>
  {
    var raw := Or(GetOr(doc, "ENTOMOLOGIST_CONTROL_SPEC", PyNone), Dict([]));
    if !raw.Dict? then Err(AttributeError) else ParseDefaultEntries(raw.entries, map[], py)
  }

  // ---------------------------------------------------------------------------
  // load_spec

  datatype EPGSettingsSpec = EPGSettingsSpec(
    engineeringControls: map<ControlKey, EngineeringControl>,
    engineeringRelations: seq<ControlRelation>,
    engineeringUiOrder: seq<ControlKey>,
    defaultControls: map<string, DefaultControl>,
    defaultUiOrder: seq<Value>,
    mappings: map<string, AffineMapping>)

  /** `name not in def_controls`: a string is looked up, an unhashable list or dict raises TypeError, anything else is absent. */
  function NotDefault(name: Value, controls: map<string, DefaultControl>): Result<bool, Exception>
  {
    match name
    case Str(s) => Ok(s !in controls)
    case List(_) => Err(TypeError)
    case Dict(_) => Err(TypeError)
    case _ => Ok(true)
  }

  function AnyNotDefault(names: seq<Value>, controls: map<string, DefaultControl>): (r: Result<bool, Exception>)
    ensures r == Ok(false) <==> forall i :: 0 <= i < |names| ==> names[i].Str? && names[i].s in controls
  {
    if |names| == 0 then Ok(false)
    else
      var missing :- NotDefault(names[0], controls);
      var rest :- AnyNotDefault(names[1..], controls);
      Ok(missing || rest)
  }

  /** The order checks at the end of `load_spec`. */
  function CheckOrders(
    engrOrder: seq<ControlKey>, engrControls: map<ControlKey, EngineeringControl>,
    defOrder: seq<Value>, defControls: map<string, DefaultControl>): (r: Result<(), Exception>)
    ensures r.Ok? <==>
      (forall i :: 0 <= i < |engrOrder| ==> engrOrder[i] in engrControls)
      && (forall i :: 0 <= i < |defOrder| ==> defOrder[i].Str? && defOrder[i].s in defControls)
  {
    if exists i :: 0 <= i < |engrOrder| && engrOrder[i] !in engrControls then Err(ValueError)
    else
      var missing :- AnyNotDefault(defOrder, defControls);
      if missing then Err(ValueError) else Ok(())
  }

  /** What a loaded spec guarantees its users. */
  predicate SpecValid(s: EPGSettingsSpec)
  {
    && ControlsValid(s.engineeringControls)
    && (forall i :: 0 <= i < |s.engineeringUiOrder| ==> s.engineeringUiOrder[i] in s.engineeringControls)
    && (forall i :: 0 <= i < |s.defaultUiOrder| ==> s.defaultUiOrder[i].Str? && s.defaultUiOrder[i].s in s.defaultControls)
    && (forall r :: r in s.engineeringRelations ==> |r.targets| > 0)
  }

  /** `load_spec` on the loaded document: the sections in the source's order, then the order checks. */
  function LoadSpec(loaded: Value, py: Builtins): (r: Result<EPGSettingsSpec, Exception>)
    ensures r.Ok? ==> SpecValid(r.value)
  {
    var doc := Or(loaded, Dict([]));
    if !doc.Dict? then Err(ValueError)
    else
      var d := doc.entries;
      var mappings :- ParseMappings(d, py);
      var engrControls :- ParseEngineeringControls(d, py);
      var engrRelations :- ParseEngineeringRelations(d, py);
      var engrOrder :- ParseEngineeringUiOrder(d);
      var defControls :- ParseDefaultControls(d, py);
      var defOrder :- Iterate(Or(GetOr(d, "ENTOMOLOGIST_UI_ORDER", PyNone), List([])));
      var _ :- CheckOrders(engrOrder, engrControls, defOrder, defControls);
      Ok(EPGSettingsSpec(engrControls, engrRelations, engrOrder, defControls, defOrder, mappings))
  }

  /** An engineering UI-order entry that names no defined control makes loading fail with ValueError once the sections parse. */
  lemma UnknownOrderEntryRejected(
    engrOrder: seq<ControlKey>, engrControls: map<ControlKey, EngineeringControl>,
    defOrder: seq<Value>, defControls: map<string, DefaultControl>, i: nat)
    requires i < |engrOrder| && engrOrder[i] !in engrControls
    ensures CheckOrders(engrOrder, engrControls, defOrder, defControls) == Err(ValueError)
  {
  }

  /** The same for an entomologist UI-order entry naming no default control. */
  lemma UnknownDefaultOrderEntryRejected(
    engrOrder: seq<ControlKey>, engrControls: map<ControlKey, EngineeringControl>,
    defOrder: seq<Value>, defControls: map<string, DefaultControl>, i: nat)
    requires forall j :: 0 <= j < |engrOrder| ==> engrOrder[j] in engrControls
    requires i < |defOrder| && defOrder[i].Str? && defOrder[i].s !in defControls
    ensures CheckOrders(engrOrder, engrControls, defOrder, defControls).Err?
  {
  }
}
