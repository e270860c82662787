/** The plant status card editor: a flat configuration of four fields, changed
    by one edit event at a time; each accepted edit is announced with one
    `config-changed` event, recorded here in an append-only log. */
module PlantStatusCard {
  import opened ConfigValues
  import opened EditorTypes

  /** The keys `cardConfigStruct` declares; superstruct's `object` refuses any other key. */
  const CardKeys: set<string> := {"type", "entity", "name", "theme"}

  /** `cardConfigStruct`: string `type` and `entity`, optional string `name` and `theme`.
      Every getter of an accepted configuration reads a string. */
  predicate IsCardConfig(v: Value)
    ensures IsCardConfig(v) ==> v.Obj? && forall k :: k in GetterKeys ==> Getter(v.fields, k).Str?
  {
    && v.Obj?
    && v.fields.Keys <= CardKeys
    && "type" in v.fields && v.fields["type"].Str?
    && "entity" in v.fields && v.fields["entity"].Str?
    && OptionalField(v.fields, "name", (x: Value) => x.Str?)
    && OptionalField(v.fields, "theme", (x: Value) => x.Str?)
  }

  /** The fields with a `_<key>` getter. */
  const GetterKeys: set<string> := {"entity", "name", "theme"}

  /** `this["_" + key]`: for `entity`, `name` and `theme` the getter, which
      reads the field or "" when it is absent or falsy; any other key reads as
      `undefined`. */
  function Getter(c: Config, key: string): (v: Value)
    ensures key !in GetterKeys ==> v == Undefined
    ensures key in GetterKeys ==> v == (if Truthy(Get(c, key)) then c[key] else Str(""))
  {
    if key in GetterKeys then Or(Get(c, key), Str("")) else Undefined
  }

  /** A snapshot of the editor's state; `events` holds the configurations carried
      by the `config-changed` events emitted so far, oldest first. */
  datatype EditorState = EditorState(hass: bool, config: Option<Config>, events: seq<Config>)

  /** `_valueChanged`, on a snapshot. */
  function OnValueChanged(s: EditorState, target: EditorTarget): (r: EditorState)
    ensures r.hass == s.hass
    ensures r == s || (r.config.Some? && r.events == s.events + [r.config.value])
  {
    if s.config.None? || !s.hass then s
    else
      var c := s.config.value;
      if Getter(c, target.configValue) == target.value then s
      else
        var c' := if target.configValue != "" then SetOrDelete(c, target.configValue, target.value) else c;
        s.(config := Some(c'), events := s.events + [c'])
  }

  /** The state after a sequence of edits, applied in order. */
  function Replay(s: EditorState, targets: seq<EditorTarget>): EditorState
    decreases |targets|
  {
    if |targets| == 0 then s else Replay(OnValueChanged(s, targets[0]), targets[1..])
  }

  /** The last `config-changed` event, if any, carries the current configuration. */
  predicate HostInSync(s: EditorState)
  {
    |s.events| > 0 ==> s.config.Some? && s.events[|s.events| - 1] == s.config.value
  }

  /** Over any sequence of edits the event log only grows, and the host, which
      keeps the last announced configuration, stays in step with the editor. */
  lemma {:induction false} ReplayKeepsHostInSync(s: EditorState, targets: seq<EditorTarget>)
    requires HostInSync(s)
    ensures var r := Replay(s, targets);
      && HostInSync(r)
      && s.events <= r.events
      && r.hass == s.hass
    decreases |targets|
  {
    if |targets| > 0 {
      ReplayKeepsHostInSync(OnValueChanged(s, targets[0]), targets[1..]);
    }
  }

  /** The `hui-plant-status-card-editor` element. */
  class PlantStatusCardEditor {
    /** Whether the host has provided `hass`. */
    var hass: bool
    var config: Option<Config>
    /** Configurations carried by the emitted `config-changed` events. */
    var events: seq<Config>

    function State(): EditorState
      reads this
    {
      EditorState(hass, config, events)
    }

    constructor ()
      ensures State() == EditorState(false, None, [])
    {
      hass := false;
      config := None;
      events := [];
    }

    /** `setConfig`: a configuration that fails `cardConfigStruct` is refused
        and nothing changes; an accepted one is stored as it is. */
    method SetConfig(c: Value) returns (outcome: Outcome)
      modifies this
      ensures outcome == Completed <==> IsCardConfig(c)
      ensures outcome != Completed ==> outcome == Threw(StructError) && State() == old(State())
      ensures outcome == Completed ==> State() == old(State()).(config := Some(c.fields))
    {
      if !IsCardConfig(c) {
        outcome := Threw(StructError);
        return;
      }
      config := Some(c.fields);
      outcome := Completed;
    }

    /** `_valueChanged`; edits come from an input or the entity picker, so only
        the target's `configValue` and `value` are read. */
    method ValueChanged(target: EditorTarget)
      modifies this
      ensures State() == OnValueChanged(old(State()), target)
    {
      if config.None? || !hass {
        return;
      }
      if Getter(config.value, target.configValue) == target.value {
        return;
      }
      if target.configValue != "" {
        if target.value == Str("") {
          config := Some(config.value - {target.configValue});
        } else {
          config := Some(config.value[target.configValue := target.value]);
        }
      }
      events := events + [config.value];
    }
  }

  /** Without a configuration or `hass` an edit changes nothing and emits nothing. */
  lemma EditIgnoredWithoutConfigOrHass(s: EditorState, target: EditorTarget)
    requires s.config.None? || !s.hass
    ensures OnValueChanged(s, target) == s
  {
  }

  /** An edit equal to what the getter reports returns early: no change, no event. */
  lemma EditToCurrentValueIsNoOp(s: EditorState, target: EditorTarget)
    requires s.config.Some? && Getter(s.config.value, target.configValue) == target.value
    ensures OnValueChanged(s, target) == s
  {
  }

  /** An empty-string edit deletes its key and keeps every other key. */
  lemma EmptyEditDeletesKey(s: EditorState, target: EditorTarget)
    requires s.hass && s.config.Some? && target.configValue != "" && target.value == Str("")
    requires Getter(s.config.value, target.configValue) != Str("")
    ensures var r := OnValueChanged(s, target);
      && r.config.Some?
      && target.configValue !in r.config.value
      && (forall k :: k != target.configValue ==> AgreeOn(r.config.value, s.config.value, k))
      && r.events == s.events + [r.config.value]
  {
  }

  /** A different non-empty edit stores the value under exactly its key. */
  lemma NonEmptyEditSetsKey(s: EditorState, target: EditorTarget)
    requires s.hass && s.config.Some? && target.configValue != "" && target.value != Str("")
    requires Getter(s.config.value, target.configValue) != target.value
    ensures var r := OnValueChanged(s, target);
      && r.config.Some?
      && target.configValue in r.config.value
      && r.config.value[target.configValue] == target.value
      && (forall k :: k != target.configValue ==> AgreeOn(r.config.value, s.config.value, k))
      && r.events == s.events + [r.config.value]
  {
  }

  /** An edit without `configValue` leaves the configuration as it is but still
      emits one `config-changed`, unless its value is `undefined`, which equals
      what the getter lookup reads for a missing key. */
  lemma EditWithoutKeyStillEmits(s: EditorState, target: EditorTarget)
    requires s.hass && s.config.Some? && target.configValue == ""
    ensures target.value != Undefined ==>
      OnValueChanged(s, target) == s.(events := s.events + [s.config.value])
    ensures target.value == Undefined ==> OnValueChanged(s, target) == s
  {
  }

  /** Edits are not re-validated: clearing the entity of a valid configuration
      whose entity is set leaves a configuration `cardConfigStruct` refuses. */
  lemma ClearingEntityLeavesInvalidConfig(s: EditorState)
    requires s.hass && s.config.Some? && IsCardConfig(Obj(s.config.value))
    requires s.config.value["entity"] != Str("")
    ensures var r := OnValueChanged(s, EditorTarget("entity", None, Str("")));
      && r.config.Some?
      && !IsCardConfig(Obj(r.config.value))
      && |r.events| == |s.events| + 1
  {
  }
}
