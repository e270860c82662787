/** The entities card editor: a card configuration, a row list computed from
    its `entities` by `setConfig` and by row edits, and an optional focused sub-element editor, changed by one
    edit event at a time. Every accepted edit announces the new configuration
    with one `config-changed` event, recorded here in an append-only log. */
module EntitiesCard {
  import opened ConfigValues
  import opened EditorTypes

  /** `processEditorEntities`, which turns the `entities` list into editor rows;
      its definition is not part of this model, so the editor is given it. */
  type Processor = seq<Value> -> seq<Value>

  /** The keys `cardConfigStruct` declares; superstruct's `object` refuses any other key. */
  const CardKeys: set<string> :=
    {"type", "title", "theme", "show_header_toggle", "state_color", "entities", "header", "footer"}

  /** `cardConfigStruct`; `isEntityConfig` and `isHeaderFooterConfig` stand for
      `entitiesConfigStruct` and `headerFooterConfigStructs`. An accepted
      configuration holds a list of accepted entity configurations, and its
      `_title` and `_theme` getters read a string (or a boolean title). */
  predicate IsCardConfig(v: Value, isEntityConfig: Value -> bool, isHeaderFooterConfig: Value -> bool)
    ensures IsCardConfig(v, isEntityConfig, isHeaderFooterConfig) ==>
      && v.Obj?
      && (forall k :: k in v.fields ==> k in CardKeys)
      && Get(v.fields, "entities").Arr?
      && (forall e :: e in Get(v.fields, "entities").items ==> isEntityConfig(e))
      && (TitleOf(v.fields).Str? || TitleOf(v.fields).Bool?)
      && ThemeOf(v.fields).Str?
  {
    && v.Obj?
    && v.fields.Keys <= CardKeys
    && "type" in v.fields && v.fields["type"].Str?
    && OptionalField(v.fields, "title", (x: Value) => x.Str? || x.Bool?)
    && OptionalField(v.fields, "theme", (x: Value) => x.Str?)
    && OptionalField(v.fields, "show_header_toggle", (x: Value) => x.Bool?)
    && OptionalField(v.fields, "state_color", (x: Value) => x.Bool?)
    && "entities" in v.fields && v.fields["entities"].Arr?
    && (forall e :: e in v.fields["entities"].items ==> isEntityConfig(e))
    && OptionalField(v.fields, "header", isHeaderFooterConfig)
    && OptionalField(v.fields, "footer", isHeaderFooterConfig)
  }

  /** A snapshot of the editor's state; `events` holds the configurations carried
      by the `config-changed` events emitted so far, oldest first. */
  datatype EditorState = EditorState(
    hass: bool,
    config: Option<Config>,
    configEntities: Option<seq<Value>>,
    subEditor: Option<SubElementEditorConfig>,
    events: seq<Config>)

  /** The state after a handler call and how the call ended. */
  datatype Step = Step(state: EditorState, outcome: Outcome)

  /** What `render` shows. */
  datatype View = Nothing | SubElementEditor | ConfigForm

  /** `render`: nothing without `hass` or a configuration, the focused
      sub-element editor while one is open, the configuration form otherwise. */
  function ViewOf(s: EditorState): (v: View)
    ensures v == Nothing <==> !s.hass || s.config.None?
    ensures v == SubElementEditor <==> s.hass && s.config.Some? && s.subEditor.Some?
    ensures v == ConfigForm <==> s.hass && s.config.Some? && s.subEditor.None?
  {
    if !s.hass || s.config.None? then Nothing
    else if s.subEditor.Some? then SubElementEditor
    else ConfigForm
  }

  /** The `_title` getter: the title, or "" when it is absent or falsy. */
  function TitleOf(c: Config): (v: Value)
    ensures v == (if Truthy(Get(c, "title")) then c["title"] else Str(""))
  {
    Or(Get(c, "title"), Str(""))
  }

  /** The `_theme` getter: the theme, or "" when it is absent or falsy. */
  function ThemeOf(c: Config): (v: Value)
    ensures v == (if Truthy(Get(c, "theme")) then c["theme"] else Str(""))
  {
    Or(Get(c, "theme"), Str(""))
  }

  /** The key an edit event changes: the control's `configValue`, or else the
      open sub-element editor's type; "" when there is neither. */
  function ConfigKey(target: EditorTarget, subEditor: Option<SubElementEditorConfig>): (key: string)
    ensures target.configValue != "" ==> key == target.configValue
    ensures target.configValue == "" && subEditor.Some? ==> key == subEditor.value.kind
    ensures key == "" <==> target.configValue == "" && (subEditor.None? || subEditor.value.kind == "")
  {
    if target.configValue != "" then target.configValue
    else if subEditor.Some? then subEditor.value.kind
    else ""
  }

  /** The value an edit event carries: a switch's `checked`, else the first
      truthy of the control's `value` and the detail's `config`, else the
      detail's `value`. Reading the detail of an event that has none throws. */
  function EventValue(ev: EditorEvent): (r: Result<Value>)
    ensures ev.target.checked.Some? ==> r == Ok(Bool(ev.target.checked.value))
    ensures r.Err? <==> ev.target.checked.None? && !Truthy(ev.target.value) && ev.detail.None?
    ensures r.Ok? && ev.target.checked.None? && Truthy(ev.target.value) ==> r.value == ev.target.value
    ensures ev.target.checked.None? && !Truthy(ev.target.value) && ev.detail.Some? ==>
      r == Ok(Or(ev.detail.value.config, ev.detail.value.value))
  {
    if ev.target.checked.Some? then Ok(Bool(ev.target.checked.value))
    else if Truthy(ev.target.value) then Ok(ev.target.value)
    else if ev.detail.None? then Err(TypeError)
    else Ok(Or(ev.detail.value.config, ev.detail.value.value))
  }

  /** An edit of `title` or `theme` to the value its getter already reports:
      the stored value itself, or "" when nothing truthy is stored. */
  predicate IsUnchangedTitleOrTheme(c: Config, key: string, target: EditorTarget)
    ensures IsUnchangedTitleOrTheme(c, key, target) ==>
      (key == "title" || key == "theme") && (target.value == Str("") || target.value == Get(c, key))
    ensures (key == "title" || key == "theme") && key in c && Truthy(c[key]) && target.value == c[key] ==>
      IsUnchangedTitleOrTheme(c, key, target)
  {
    || (key == "title" && target.value == TitleOf(c))
    || (key == "theme" && target.value == ThemeOf(c))
  }

  /** The event carries a new `entities` list from the row editor; such an
      event has a detail, so reading its value never throws. */
  predicate CarriesEntities(ev: EditorEvent)
    ensures CarriesEntities(ev) ==> EventValue(ev).Ok?
  {
    ev.detail.Some? && ev.detail.value.entities.Some?
  }

  /** `_valueChanged`, on a snapshot. */
  function OnValueChanged(s: EditorState, ev: EditorEvent, process: Processor): (r: Step)
    ensures r.state.hass == s.hass && r.state.subEditor == s.subEditor
    ensures r.outcome.Threw? ==> r.state == s
    ensures r.state == s || (r.state.config.Some? && r.state.events == s.events + [r.state.config.value])
  {
    if s.config.None? || !s.hass then Step(s, Completed)
    else
      var c := s.config.value;
      var key := ConfigKey(ev.target, s.subEditor);
      match EventValue(ev)
      case Err(e) => Step(s, Threw(e))
      case Ok(value) =>
        if IsUnchangedTitleOrTheme(c, key, ev.target) then Step(s, Completed)
        else if CarriesEntities(ev) then
          var rows := ev.detail.value.entities.value;
          var c' := c["entities" := Arr(rows)];
          Step(s.(config := Some(c'), configEntities := Some(process(rows)), events := s.events + [c']), Completed)
        else
          var c' := if key != "" then SetOrDelete(c, key, value) else c;
          Step(s.(config := Some(c'), events := s.events + [c']), Completed)
  }

  /** The editor's invariant: a row list is present whenever a configuration
      is held, since `setConfig` is the only way a configuration arrives. */
  predicate RowsPresent(s: EditorState)
  {
    s.config.Some? ==> s.configEntities.Some?
  }

  /** When a row is being edited, the descriptor names an existing row. */
  predicate RowEditTargetsExistingRow(s: EditorState)
  {
    s.hass && s.config.Some? && s.subEditor.Some? && s.subEditor.value.kind == "row" && s.configEntities.Some? ==>
      && s.subEditor.value.index.Some?
      && 0 <= s.subEditor.value.index.value < |s.configEntities.value|
  }

  /** `_handleSubElementChanged`, on a snapshot; `value` is the event's `detail.config`. */
  function OnSubElementChanged(s: EditorState, value: Value, process: Processor): (r: EditorState)
    requires RowsPresent(s) && RowEditTargetsExistingRow(s)
    ensures r.hass == s.hass
    ensures r == s || (
      && r.config.Some?
      && r.events == s.events + [r.config.value]
      && s.subEditor.Some?
      && (r.subEditor.None? <==> !Truthy(value))
      && (r.subEditor.Some? ==> r.subEditor == Some(s.subEditor.value.(elementConfig := value))))
  {
    if s.config.None? || !s.hass || s.subEditor.None? || s.subEditor.value.kind == "" then s
    else
      var c := s.config.value;
      var sub := s.subEditor.value;
      var goBack := !Truthy(value);
      var s' :=
        if sub.kind == "row" then
          var rows := s.configEntities.value;
          var i := sub.index.value;
          var rows' := if goBack then RemoveAt(rows, i) else rows[i := value];
          s.(config := Some(c["entities" := Arr(rows')]), configEntities := Some(process(rows')))
        else if goBack then s.(config := Some(c - {sub.kind}))
        else s.(config := Some(c[sub.kind := value]));
      s'.(subEditor := if goBack then None else Some(sub.(elementConfig := value)),
          events := s.events + [s'.config.value])
  }

  /** The `hui-entities-card-editor` element. */
  class EntitiesCardEditor {
    const process: Processor
    const isEntityConfig: Value -> bool
    const isHeaderFooterConfig: Value -> bool

    /** Whether the host has provided `hass`. */
    var hass: bool
    var config: Option<Config>
    var configEntities: Option<seq<Value>>
    var subEditor: Option<SubElementEditorConfig>
    /** Configurations carried by the emitted `config-changed` events. */
    var events: seq<Config>

    function State(): EditorState
      reads this
    {
      EditorState(hass, config, configEntities, subEditor, events)
    }

    /** A row list is present whenever a configuration is held. */
    ghost predicate Valid()
      reads this
    {
      RowsPresent(State())
    }

    constructor (process: Processor, isEntityConfig: Value -> bool, isHeaderFooterConfig: Value -> bool)
      ensures Valid()
      ensures this.process == process && this.isEntityConfig == isEntityConfig
      ensures this.isHeaderFooterConfig == isHeaderFooterConfig
      ensures State() == EditorState(false, None, None, None, [])
    {
      this.process := process;
      this.isEntityConfig := isEntityConfig;
      this.isHeaderFooterConfig := isHeaderFooterConfig;
      hass := false;
      config := None;
      configEntities := None;
      subEditor := None;
      events := [];
    }

    /** `setConfig`: a configuration that fails `cardConfigStruct` is refused
        and nothing changes; an accepted one is stored and its rows derived. */
    method SetConfig(c: Value) returns (outcome: Outcome)
      requires Valid()
      modifies this
      ensures Valid()
      ensures outcome == Completed <==> IsCardConfig(c, isEntityConfig, isHeaderFooterConfig)
      ensures outcome != Completed ==> outcome == Threw(StructError) && State() == old(State())
      ensures outcome == Completed ==>
        && config == Some(c.fields)
        && configEntities == Some(process(c.fields["entities"].items))
        && hass == old(hass) && subEditor == old(subEditor) && events == old(events)
    {
      if !IsCardConfig(c, isEntityConfig, isHeaderFooterConfig) {
        outcome := Threw(StructError);
        return;
      }
      config := Some(c.fields);
      configEntities := Some(process(c.fields["entities"].items));
      outcome := Completed;
    }

    /** `_valueChanged`. */
    method ValueChanged(ev: EditorEvent) returns (outcome: Outcome)
      requires Valid()
      modifies this
      ensures Valid()
      ensures Step(State(), outcome) == OnValueChanged(old(State()), ev, process)
    {
      outcome := Completed;
      if config.None? || !hass {
        return;
      }
      var configValue := ConfigKey(ev.target, subEditor);
      var value: Value;
      match EventValue(ev) {
        case Err(e) =>
          outcome := Threw(e);
          return;
        case Ok(v) =>
          value := v;
      }
      if IsUnchangedTitleOrTheme(config.value, configValue, ev.target) {
        return;
      }
      if CarriesEntities(ev) {
        var newConfigEntities := ev.detail.value.entities.value;
        config := Some(config.value["entities" := Arr(newConfigEntities)]);
        configEntities := Some(process(config.value["entities"].items));
      } else if configValue != "" {
        if value == Str("") {
          config := Some(config.value - {configValue});
        } else {
          config := Some(config.value[configValue := value]);
        }
      }
      events := events + [config.value];
    }

    /** `_handleSubElementChanged`; `value` is the event's `detail.config`. */
    method HandleSubElementChanged(value: Value)
      requires Valid() && RowEditTargetsExistingRow(State())
      modifies this
      ensures Valid()
      ensures State() == OnSubElementChanged(old(State()), value, process)
    {
      if config.None? || !hass || subEditor.None? || subEditor.value.kind == "" {
        return;
      }
      var configValue := subEditor.value.kind;
      var goBack := false;
      if configValue == "row" {
        var newConfigEntities := configEntities.value;
        var index := subEditor.value.index.value;
        if !Truthy(value) {
          newConfigEntities := newConfigEntities[..index] + newConfigEntities[index + 1..];
          goBack := true;
        } else {
          newConfigEntities := newConfigEntities[index := value];
        }
        config := Some(config.value["entities" := Arr(newConfigEntities)]);
        configEntities := Some(process(config.value["entities"].items));
      } else {
        if !Truthy(value) {
          config := Some(config.value - {configValue});
          goBack := true;
        } else {
          config := Some(config.value[configValue := value]);
        }
      }
      if goBack {
        GoBack();
      } else {
        subEditor := Some(subEditor.value.(elementConfig := value));
      }
      events := events + [config.value];
    }

    /** `_editDetailElement`: opens the sub-element editor on the descriptor the event carries. */
    method EditDetailElement(subElementConfig: SubElementEditorConfig)
      modifies this
      ensures State() == old(State()).(subEditor := Some(subElementConfig))
    {
      subEditor := Some(subElementConfig);
    }

    /** `_goBack`: closes the sub-element editor. */
    method GoBack()
      modifies this
      ensures State() == old(State()).(subEditor := None)
    {
      subEditor := None;
    }
  }

  /** Without a configuration or `hass` both edit handlers change nothing and emit nothing. */
  lemma EditsIgnoredWithoutConfigOrHass(s: EditorState, ev: EditorEvent, value: Value, process: Processor)
    requires RowsPresent(s) && (s.config.None? || !s.hass)
    ensures OnValueChanged(s, ev, process) == Step(s, Completed)
    ensures OnSubElementChanged(s, value, process) == s
  {
  }

  /** A sub-element change with no sub-element editor open, or one whose
      descriptor has an empty type, changes nothing and emits nothing. */
  lemma SubElementChangeIgnoredWithoutType(s: EditorState, value: Value, process: Processor)
    requires RowsPresent(s) && (s.subEditor.None? || s.subEditor.value.kind == "")
    ensures OnSubElementChanged(s, value, process) == s
  {
  }

  /** Editing `title` or `theme` to the value its getter reports is a no-op. */
  lemma UnchangedTitleOrThemeIsNoOp(s: EditorState, ev: EditorEvent, process: Processor)
    requires s.hass && s.config.Some? && EventValue(ev).Ok?
    requires IsUnchangedTitleOrTheme(s.config.value, ConfigKey(ev.target, s.subEditor), ev.target)
    ensures OnValueChanged(s, ev, process) == Step(s, Completed)
  {
  }

  /** An absent title reads as "", so clearing it changes nothing and emits nothing. */
  lemma ClearingAbsentTitleIsNoOp(s: EditorState, ev: EditorEvent, process: Processor)
    requires s.hass && s.config.Some? && "title" !in s.config.value
    requires ev.target == EditorTarget("title", None, Str("")) && ev.detail.Some?
    ensures OnValueChanged(s, ev, process) == Step(s, Completed)
  {
  }

  /** Any other accepted edit emits exactly one `config-changed`, carrying the new configuration. */
  lemma AcceptedEditEmitsOneEvent(s: EditorState, ev: EditorEvent, process: Processor)
    requires s.hass && s.config.Some? && EventValue(ev).Ok?
    requires !IsUnchangedTitleOrTheme(s.config.value, ConfigKey(ev.target, s.subEditor), ev.target)
    ensures var r := OnValueChanged(s, ev, process);
      && r.outcome == Completed
      && r.state.config.Some?
      && r.state.events == s.events + [r.state.config.value]
  {
  }

  /** An event whose value must be read from a missing detail throws, and nothing changes. */
  lemma MissingDetailThrows(s: EditorState, ev: EditorEvent, process: Processor)
    requires s.hass && s.config.Some?
    requires ev.target.checked.None? && !Truthy(ev.target.value) && ev.detail.None?
    ensures OnValueChanged(s, ev, process) == Step(s, Threw(TypeError))
  {
  }

  /** A form edit with no key (no `configValue` and no sub-element editor
      type) and no `entities` list leaves the configuration as it is but still
      emits one `config-changed`. */
  lemma EditWithoutKeyStillEmits(s: EditorState, ev: EditorEvent, process: Processor)
    requires s.hass && s.config.Some? && !CarriesEntities(ev)
    requires ConfigKey(ev.target, s.subEditor) == "" && EventValue(ev).Ok?
    ensures OnValueChanged(s, ev, process) == Step(s.(events := s.events + [s.config.value]), Completed)
  {
  }

  /** An empty-string edit removes its key; every other key and the rest of the state are kept. */
  lemma EmptyEditDeletesKey(s: EditorState, ev: EditorEvent, process: Processor)
    requires s.hass && s.config.Some? && !CarriesEntities(ev)
    requires ConfigKey(ev.target, s.subEditor) != "" && EventValue(ev) == Ok(Str(""))
    requires !IsUnchangedTitleOrTheme(s.config.value, ConfigKey(ev.target, s.subEditor), ev.target)
    ensures var r := OnValueChanged(s, ev, process); var key := ConfigKey(ev.target, s.subEditor);
      && r.outcome == Completed
      && r.state.config.Some?
      && key !in r.state.config.value
      && (forall k :: k != key ==> AgreeOn(r.state.config.value, s.config.value, k))
      && r.state.configEntities == s.configEntities
      && r.state.events == s.events + [r.state.config.value]
  {
  }

  /** A non-empty edit stores its value under exactly its key. */
  lemma NonEmptyEditSetsKey(s: EditorState, ev: EditorEvent, process: Processor)
    requires s.hass && s.config.Some? && !CarriesEntities(ev)
    requires ConfigKey(ev.target, s.subEditor) != ""
    requires EventValue(ev).Ok? && EventValue(ev).value != Str("")
    requires !IsUnchangedTitleOrTheme(s.config.value, ConfigKey(ev.target, s.subEditor), ev.target)
    ensures var r := OnValueChanged(s, ev, process); var key := ConfigKey(ev.target, s.subEditor);
      && r.outcome == Completed
      && r.state.config.Some?
      && key in r.state.config.value && r.state.config.value[key] == EventValue(ev).value
      && (forall k :: k != key ==> AgreeOn(r.state.config.value, s.config.value, k))
      && r.state.configEntities == s.configEntities
      && r.state.events == s.events + [r.state.config.value]
  {
  }

  /** A switch stores its `checked` state, so switching off stores `false` rather than deleting the key. */
  lemma SwitchStoresChecked(s: EditorState, ev: EditorEvent, process: Processor)
    requires s.hass && s.config.Some? && !CarriesEntities(ev)
    requires ev.target.configValue != "" && ev.target.configValue != "title" && ev.target.configValue != "theme"
    requires ev.target.checked.Some?
    ensures var r := OnValueChanged(s, ev, process).state; var key := ev.target.configValue;
      && r.config.Some?
      && key in r.config.value
      && r.config.value[key] == Bool(ev.target.checked.value)
  {
  }

  /** An `entities-changed` edit replaces `entities` wholesale and re-derives the rows from the new list. */
  lemma EntitiesEditReplacesList(s: EditorState, ev: EditorEvent, process: Processor)
    requires s.hass && s.config.Some? && CarriesEntities(ev) && EventValue(ev).Ok?
    requires !IsUnchangedTitleOrTheme(s.config.value, ConfigKey(ev.target, s.subEditor), ev.target)
    ensures var r := OnValueChanged(s, ev, process); var rows := ev.detail.value.entities.value;
      && r.outcome == Completed
      && r.state.config.Some?
      && "entities" in r.state.config.value && r.state.config.value["entities"] == Arr(rows)
      && (forall k :: k != "entities" ==> AgreeOn(r.state.config.value, s.config.value, k))
      && r.state.configEntities == Some(process(rows))
      && r.state.events == s.events + [r.state.config.value]
  {
  }

  /** Removing the edited row: the processed rows lose the entry at `index`,
      later rows move down by one, the rows are re-derived from the new
      `entities`, and the sub-element editor closes. */
  lemma RowRemovalShiftsRowsAndCloses(s: EditorState, value: Value, process: Processor)
    requires s.hass && s.config.Some? && s.subEditor.Some? && s.subEditor.value.kind == "row"
    requires s.configEntities.Some? && s.subEditor.value.index.Some?
    requires 0 <= s.subEditor.value.index.value < |s.configEntities.value|
    requires !Truthy(value)
    ensures var r := OnSubElementChanged(s, value, process);
      var rows := s.configEntities.value; var i := s.subEditor.value.index.value;
      && r.config.Some?
      && "entities" in r.config.value && r.config.value["entities"].Arr?
      && var kept := r.config.value["entities"].items;
      && |kept| == |rows| - 1
      && (forall j :: 0 <= j < i ==> kept[j] == rows[j])
      && (forall j :: i <= j < |kept| ==> kept[j] == rows[j + 1])
      && (forall k :: k != "entities" ==> AgreeOn(r.config.value, s.config.value, k))
      && r.configEntities == Some(process(kept))
      && r.subEditor.None? && ViewOf(r) == ConfigForm
      && r.events == s.events + [r.config.value]
  {
  }

  /** Replacing the edited row: only the entry at `index` changes, the length is
      kept, and the sub-element editor stays open on the new row configuration. */
  lemma RowReplacementKeepsLengthAndStaysOpen(s: EditorState, value: Value, process: Processor)
    requires s.hass && s.config.Some? && s.subEditor.Some? && s.subEditor.value.kind == "row"
    requires s.configEntities.Some? && s.subEditor.value.index.Some?
    requires 0 <= s.subEditor.value.index.value < |s.configEntities.value|
    requires Truthy(value)
    ensures var r := OnSubElementChanged(s, value, process);
      var rows := s.configEntities.value; var i := s.subEditor.value.index.value;
      && r.config.Some?
      && "entities" in r.config.value && r.config.value["entities"].Arr?
      && var updated := r.config.value["entities"].items;
      && |updated| == |rows|
      && updated[i] == value
      && (forall j :: 0 <= j < |rows| && j != i ==> updated[j] == rows[j])
      && (forall k :: k != "entities" ==> AgreeOn(r.config.value, s.config.value, k))
      && r.configEntities == Some(process(updated))
      && r.subEditor == Some(s.subEditor.value.(elementConfig := value))
      && ViewOf(r) == SubElementEditor
      && r.events == s.events + [r.config.value]
  {
  }

  /** A header or footer sub-edit: a falsy value deletes the key and closes the
      sub-element editor, any other value is stored and the editor stays open. */
  lemma HeaderFooterEditSetsOrClears(s: EditorState, value: Value, process: Processor)
    requires RowsPresent(s) && s.hass && s.config.Some? && s.subEditor.Some?
    requires s.subEditor.value.kind != "row" && s.subEditor.value.kind != ""
    ensures var r := OnSubElementChanged(s, value, process); var key := s.subEditor.value.kind;
      && r.config.Some?
      && (!Truthy(value) ==> key !in r.config.value && r.subEditor.None?)
      && (Truthy(value) ==> key in r.config.value && r.config.value[key] == value
                            && r.subEditor == Some(s.subEditor.value.(elementConfig := value)))
      && (forall k :: k != key ==> AgreeOn(r.config.value, s.config.value, k))
      && r.configEntities == s.configEntities
      && r.events == s.events + [r.config.value]
  {
  }

  /** One user action on the editor: a form edit, a sub-element edit (carrying
      the event's `detail.config`), opening a sub-element editor, going back. */
  datatype Edit =
    | FormEdit(ev: EditorEvent)
    | SubElementEdit(config: Value)
    | OpenSubElement(subElementConfig: SubElementEditorConfig)
    | CloseSubElement

  /** A row sub-edit in the sequence targets an existing row when it arrives. */
  predicate CanApply(s: EditorState, e: Edit)
  {
    e.SubElementEdit? ==> RowsPresent(s) && RowEditTargetsExistingRow(s)
  }

  /** The state after one action, as the handler it is dispatched to leaves it. */
  function Apply(s: EditorState, e: Edit, process: Processor): EditorState
    requires CanApply(s, e)
  {
    match e
    case FormEdit(ev) => OnValueChanged(s, ev, process).state
    case SubElementEdit(value) => OnSubElementChanged(s, value, process)
    case OpenSubElement(sub) => s.(subEditor := Some(sub))
    case CloseSubElement => s.(subEditor := None)
  }

  /** Every action of the sequence can be applied in turn. */
  predicate CanReplay(s: EditorState, edits: seq<Edit>, process: Processor)
    decreases |edits|
  {
    |edits| == 0 || (CanApply(s, edits[0]) && CanReplay(Apply(s, edits[0], process), edits[1..], process))
  }

  /** The state after a sequence of actions, applied in order. */
  function Replay(s: EditorState, edits: seq<Edit>, process: Processor): EditorState
    requires CanReplay(s, edits, process)
    decreases |edits|
  {
    if |edits| == 0 then s else Replay(Apply(s, edits[0], process), edits[1..], process)
  }

  /** The last `config-changed` event, if any, carries the current configuration. */
  predicate HostInSync(s: EditorState)
  {
    |s.events| > 0 ==> s.config.Some? && s.events[|s.events| - 1] == s.config.value
  }

  /** Over any sequence of actions the event log only grows, and the host, which
      keeps the last announced configuration, stays in step with the editor. */
  lemma {:induction false} ReplayKeepsHostInSync(s: EditorState, edits: seq<Edit>, process: Processor)
    requires CanReplay(s, edits, process) && HostInSync(s)
    ensures var r := Replay(s, edits, process);
      && HostInSync(r)
      && s.events <= r.events
      && r.hass == s.hass
    decreases |edits|
  {
    if |edits| > 0 {
      var next := Apply(s, edits[0], process);
      ReplayKeepsHostInSync(next, edits[1..], process);
    }
  }

  /** Opening a row's editor and then removing that row leaves the editor on the
      configuration form with the row gone. */
  method RemoveRowWhileEditingIt(editor: EntitiesCardEditor, index: nat)
    requires editor.Valid() && editor.hass && editor.config.Some?
    requires editor.configEntities.Some? && index < |editor.configEntities.value|
    modifies editor
    ensures ViewOf(editor.State()) == ConfigForm
    ensures editor.config.Some? && "entities" in editor.config.value
    ensures editor.config.value["entities"] == Arr(RemoveAt(old(editor.configEntities.value), index))
    ensures |editor.events| == |old(editor.events)| + 1
  {
    editor.EditDetailElement(SubElementEditorConfig("row", Some(index), Undefined));
    editor.HandleSubElementChanged(Undefined);
  }
}
