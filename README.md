# Lovelace card editors and the light brightness tile control, in Dafny

This project models three elements of the Home Assistant frontend's Lovelace dashboard:

- **The entities card editor** (`hui-entities-card-editor`). It holds three things: a card configuration, a row list, computed from the configuration's `entities` by `setConfig` and by row and `entities` edits, and an optional sub-element editor for one row, the header or the footer. One edit event at a time changes them. The main points are:
  - an empty-string edit deletes its key;
  - any other edit stores exactly one key;
  - title and theme edits that match the current value are ignored;
  - a row sub-edit removes or replaces one row;
  - a header or footer sub-edit clears or sets that key;
  - every accepted edit emits exactly one `config-changed` event.
- **The plant status card editor** (`hui-plant-status-card-editor`). It does the same set, delete and ignore-if-unchanged update on a flat record with four fields.
- **The light brightness tile control** (`hui-light-brightness-tile-control`). It turns a 0..255 brightness into a 1..100 slider position, disables the slider for an unavailable light, and builds the `light.turn_on` request.

Files:

- `config_values.dfy`, module `ConfigValues`. It holds JavaScript values as they appear in configurations (`undefined`, strings, booleans, objects, arrays) and the JavaScript operations the editors use: truthiness, `||`, the set-or-delete update on a copy, and `splice(i, 1)`.
- `editor_types.dfy`, module `EditorTypes`. It holds the edit events and the sub-element editor descriptor.
- `entities_card_editor.dfy`, module `EntitiesCard`. The element is the class `EntitiesCardEditor`. Its methods change the fields `config`, `configEntities`, `subEditor` and the event log, step by step as the source does. Each handler is also given as a function on a snapshot of the state (`OnValueChanged`, `OnSubElementChanged`). The method's postcondition ties the new state to that function of the old state. The lemmas state the editor's behaviour in terms of these functions.
- `plant_status_card_editor.dfy`, module `PlantStatusCard`. It follows the same pattern.
- `light_brightness_tile_control.dfy`, module `LightBrightnessTile`. It has the stub configuration and the brightness-to-position conversion as functions, with lemmas about them. The class holds the configuration and a log of requested service calls.

The elements' external collaborators are represented in simple ways:

- `fireEvent(this, "config-changed", …)` appends the emitted configuration to the element's `events` log.
- `hass` is a flag saying whether the host has provided it.
- `hass.callService` appends its arguments to `calls`.
- `processEditorEntities`, `entitiesConfigStruct` and `headerFooterConfigStructs` are not part of this model. The entities editor receives them as functions when it is constructed.
- superstruct's `assert(config, cardConfigStruct)` becomes the predicate `IsCardConfig`. An `object` struct accepts no keys other than the ones it declares, and `optional` accepts an absent key or `undefined`.

Points of the code's behaviour that a reader might not expect; the model follows the code:

- The editor never turns processed rows back into the compact form they were written in, so no round-trip law between the two is modelled. A row sub-edit writes the processed rows back into `entities`, so after one row edit `entities` holds processed entries.
- The entities editor ignores an unchanged value only for `title` and `theme`. Any other edit emits a `config-changed` event even when it changes nothing. The plant editor ignores an unchanged value for each field that has a getter.
- An out-of-range row index is not checked by the code. It is not a fail-fast error there. The model requires the index to name an existing row (see Left out).
- A value-changed event without a `detail`, whose value must be read from that detail, throws a `TypeError` before anything changes. The model returns `Threw(TypeError)` and leaves the state as it was.

## Model

| member | source | states |
|---|---|---|
| ConfigValues.Or | src/panels/lovelace/editor/config-elements/hui-entities-card-editor.ts:81 | JavaScript's or-operator gives a truthy result exactly when either operand is; it is the first operand when that one is truthy and the second operand otherwise |
| ConfigValues.SetOrDelete | src/panels/lovelace/editor/config-elements/hui-entities-card-editor.ts:211-218 | the empty string removes the key; any other value is stored under it; every other key keeps its presence and value |
| ConfigValues.RemoveAt | src/panels/lovelace/editor/config-elements/hui-entities-card-editor.ts:237-239 | `splice(i, 1)` gives length n-1; entries before i stay, later entries move down by one; the multiset loses exactly the removed entry |
| EntitiesCard.IsCardConfig | src/panels/lovelace/editor/config-elements/hui-entities-card-editor.ts:50-59 | `cardConfigStruct`: an accepted configuration is an object with no undeclared key, whose `entities` is a list of accepted entity configurations, whose `_title` reads a string or boolean and whose `_theme` reads a string |
| EntitiesCard.TitleOf | src/panels/lovelace/editor/config-elements/hui-entities-card-editor.ts:80-82 | `_title` is the stored title when it is truthy, and "" otherwise, including when it is absent |
| EntitiesCard.ThemeOf | src/panels/lovelace/editor/config-elements/hui-entities-card-editor.ts:84-86 | `_theme` is the stored theme when it is truthy, and "" otherwise, including when it is absent |
| EntitiesCard.ConfigKey | src/panels/lovelace/editor/config-elements/hui-entities-card-editor.ts:191-192 | the edited key is the control's `configValue` when it has one, otherwise the open sub-element editor's type; it is empty exactly when neither exists |
| EntitiesCard.IsUnchangedTitleOrTheme | src/panels/lovelace/editor/config-elements/hui-entities-card-editor.ts:198-203 | the early return fires only for `title` or `theme`, and only for a value equal to the stored one or ""; it does fire for an edit equal to a truthy stored value |
| EntitiesCard.CarriesEntities | src/panels/lovelace/editor/config-elements/hui-entities-card-editor.ts:205 | an event carrying an `entities` list has a detail, so reading its value never throws |
| EntitiesCard.ViewOf | src/panels/lovelace/editor/config-elements/hui-entities-card-editor.ts:88-104 | nothing is shown exactly when `hass` or the configuration is missing; the sub-element editor exactly when one is open; the form otherwise |
| EntitiesCard.EventValue | src/panels/lovelace/editor/config-elements/hui-entities-card-editor.ts:193-196 | a switch yields its `checked`; a truthy control value is used as it is; otherwise the detail's `config`, or its `value` when `config` is falsy; the read throws exactly when there is no `checked`, the control value is falsy and the event has no detail |
| EntitiesCard.OnValueChanged | src/panels/lovelace/editor/config-elements/hui-entities-card-editor.ts:184-223 | `hass` and the sub-editor never change; a throw changes nothing; otherwise either nothing changes or exactly one event is appended, carrying the new configuration |
| EntitiesCard.OnSubElementChanged | src/panels/lovelace/editor/config-elements/hui-entities-card-editor.ts:225-270 | either nothing changes, or one event carries the new configuration; the sub-editor closes exactly when the value is falsy, and otherwise stays open with `elementConfig` set to the value |
| EntitiesCard.EntitiesCardEditor.constructor | src/panels/lovelace/editor/config-elements/hui-entities-card-editor.ts:64-72 | a new editor has no `hass`, configuration, rows or sub-editor, and has emitted nothing |
| EntitiesCard.EntitiesCardEditor.SetConfig | src/panels/lovelace/editor/config-elements/hui-entities-card-editor.ts:74-78 | accepted exactly when `cardConfigStruct` holds; a refused configuration throws a struct error and changes nothing; an accepted one is stored and its rows set to `processEditorEntities(entities)` |
| EntitiesCard.EntitiesCardEditor.ValueChanged | src/panels/lovelace/editor/config-elements/hui-entities-card-editor.ts:184-223 | the imperative handler's new state and outcome are those of `OnValueChanged`, and a row list stays present whenever a configuration is held |
| EntitiesCard.EntitiesCardEditor.HandleSubElementChanged | src/panels/lovelace/editor/config-elements/hui-entities-card-editor.ts:225-270 | the imperative handler's new state is that of `OnSubElementChanged` |
| EntitiesCard.EntitiesCardEditor.EditDetailElement | src/panels/lovelace/editor/config-elements/hui-entities-card-editor.ts:272-274 | opens the sub-editor on the given descriptor; nothing else changes and nothing is emitted |
| EntitiesCard.EntitiesCardEditor.GoBack | src/panels/lovelace/editor/config-elements/hui-entities-card-editor.ts:276-278 | closes the sub-editor; nothing else changes |
| EntitiesCard.EditsIgnoredWithoutConfigOrHass | src/panels/lovelace/editor/config-elements/hui-entities-card-editor.ts:186-188 | without a configuration or `hass` both handlers leave the state unchanged and emit nothing |
| EntitiesCard.SubElementChangeIgnoredWithoutType | src/panels/lovelace/editor/config-elements/hui-entities-card-editor.ts:227-231 | with no sub-editor open, or with an open descriptor whose type is empty, a sub-element change does nothing and emits nothing |
| EntitiesCard.UnchangedTitleOrThemeIsNoOp | src/panels/lovelace/editor/config-elements/hui-entities-card-editor.ts:198-203 | a title or theme edit equal to the getter's value leaves the state unchanged and emits nothing |
| EntitiesCard.ClearingAbsentTitleIsNoOp | src/panels/lovelace/editor/config-elements/hui-entities-card-editor.ts:80-82 | an absent title reads as "", so clearing it changes nothing and emits nothing |
| EntitiesCard.AcceptedEditEmitsOneEvent | src/panels/lovelace/editor/config-elements/hui-entities-card-editor.ts:222 | every edit that is neither ignored nor thrown emits exactly one event, carrying the new configuration |
| EntitiesCard.MissingDetailThrows | src/panels/lovelace/editor/config-elements/hui-entities-card-editor.ts:193-196 | an event whose value must come from a missing detail throws a `TypeError` and changes nothing |
| EntitiesCard.EditWithoutKeyStillEmits | src/panels/lovelace/editor/config-elements/hui-entities-card-editor.ts:205-222 | a form edit with no key and no `entities` list leaves the configuration and rows as they are and still emits one event |
| EntitiesCard.EmptyEditDeletesKey | src/panels/lovelace/editor/config-elements/hui-entities-card-editor.ts:210-213 | an empty-string edit removes its key; all other keys, the rows and the sub-editor are kept; one event is emitted |
| EntitiesCard.NonEmptyEditSetsKey | src/panels/lovelace/editor/config-elements/hui-entities-card-editor.ts:214-219 | a non-empty edit stores its value under its key only; all other keys and the rows are kept; one event is emitted |
| EntitiesCard.SwitchStoresChecked | src/panels/lovelace/editor/config-elements/hui-entities-card-editor.ts:193-196 | a switch edit stores `checked` under its key, so switching off stores `false` rather than deleting |
| EntitiesCard.EntitiesEditReplacesList | src/panels/lovelace/editor/config-elements/hui-entities-card-editor.ts:205-209 | an `entities-changed` edit replaces `entities` wholesale, keeps every other key, and re-derives the rows from the new list |
| EntitiesCard.RowRemovalShiftsRowsAndCloses | src/panels/lovelace/editor/config-elements/hui-entities-card-editor.ts:236-246 | removing the edited row gives the processed rows minus entry `index`, in order; the rows are re-derived; the sub-editor closes and the form is shown |
| EntitiesCard.RowReplacementKeepsLengthAndStaysOpen | src/panels/lovelace/editor/config-elements/hui-entities-card-editor.ts:241-246 | replacing the edited row changes only entry `index` and keeps the length; the sub-editor stays open on the new value |
| EntitiesCard.HeaderFooterEditSetsOrClears | src/panels/lovelace/editor/config-elements/hui-entities-card-editor.ts:247-258 | a falsy header or footer value deletes the key and closes the sub-editor; any other value is stored and the sub-editor stays open; other keys and rows are kept |
| EntitiesCard.ReplayKeepsHostInSync | src/panels/lovelace/editor/config-elements/hui-entities-card-editor.ts:184-278 | over any sequence of form edits, sub-element edits, openings and go-backs, the event log only grows and its last event always carries the current configuration |
| EntitiesCard.RemoveRowWhileEditingIt | src/panels/lovelace/editor/config-elements/hui-entities-card-editor.ts:236-261 | opening a row's editor and then removing that row returns to the form, with `entities` equal to the rows minus that entry, and emits one event |
| PlantStatusCard.IsCardConfig | src/panels/lovelace/editor/config-elements/hui-plant-status-card-editor.ts:23-28 | `cardConfigStruct`: an accepted configuration is an object on which every getter (`_entity`, `_name`, `_theme`) reads a string |
| PlantStatusCard.Getter | src/panels/lovelace/editor/config-elements/hui-plant-status-card-editor.ts:46-56 | `_entity`, `_name` and `_theme` read the field, or "" when it is absent or falsy; any other key reads as `undefined` |
| PlantStatusCard.OnValueChanged | src/panels/lovelace/editor/config-elements/hui-plant-status-card-editor.ts:103-123 | `hass` never changes; either nothing changes or exactly one event is appended, carrying the new configuration |
| PlantStatusCard.PlantStatusCardEditor.constructor | src/panels/lovelace/editor/config-elements/hui-plant-status-card-editor.ts:35-39 | a new editor has no `hass` and no configuration, and has emitted nothing |
| PlantStatusCard.PlantStatusCardEditor.SetConfig | src/panels/lovelace/editor/config-elements/hui-plant-status-card-editor.ts:41-44 | accepted exactly when `type` and `entity` are strings, `name` and `theme` are absent or strings, and there are no other keys; a refused configuration throws and changes nothing |
| PlantStatusCard.PlantStatusCardEditor.ValueChanged | src/panels/lovelace/editor/config-elements/hui-plant-status-card-editor.ts:103-123 | the imperative handler's new state is that of `OnValueChanged` |
| PlantStatusCard.EditIgnoredWithoutConfigOrHass | src/panels/lovelace/editor/config-elements/hui-plant-status-card-editor.ts:104-106 | without a configuration or `hass` an edit does nothing |
| PlantStatusCard.EditToCurrentValueIsNoOp | src/panels/lovelace/editor/config-elements/hui-plant-status-card-editor.ts:108-110 | an edit equal to the getter's value changes nothing and emits nothing |
| PlantStatusCard.EmptyEditDeletesKey | src/panels/lovelace/editor/config-elements/hui-plant-status-card-editor.ts:112-114 | an empty-string edit removes its key, keeps every other key, and emits one event |
| PlantStatusCard.NonEmptyEditSetsKey | src/panels/lovelace/editor/config-elements/hui-plant-status-card-editor.ts:115-119 | a different non-empty edit stores its value under exactly its key and emits one event |
| PlantStatusCard.EditWithoutKeyStillEmits | src/panels/lovelace/editor/config-elements/hui-plant-status-card-editor.ts:107-122 | an edit without `configValue` leaves the configuration as it is and still emits one event, unless its value is `undefined` |
| PlantStatusCard.ClearingEntityLeavesInvalidConfig | src/panels/lovelace/editor/config-elements/hui-plant-status-card-editor.ts:112-114 | edits are not re-validated: clearing a set entity leaves a configuration that `cardConfigStruct` refuses |
| PlantStatusCard.ReplayKeepsHostInSync | src/panels/lovelace/editor/config-elements/hui-plant-status-card-editor.ts:103-123 | over any sequence of edits, the event log only grows and its last event always carries the current configuration |
| LightBrightnessTile.StubConfig | src/panels/lovelace/tile-control/hui-light-brightness-tile-control.ts:22-26 | the stub configuration's only field is `type = "light-brightness"` |
| LightBrightnessTile.JsRound | src/panels/lovelace/tile-control/hui-light-brightness-tile-control.ts:43 | `Math.round` gives the integer within half a unit, halves rounded up |
| LightBrightnessTile.Position | src/panels/lovelace/tile-control/hui-light-brightness-tile-control.ts:42-45 | the position is at least 1 for every brightness, and at most 100 for brightness up to 255 |
| LightBrightnessTile.Render | src/panels/lovelace/tile-control/hui-light-brightness-tile-control.ts:35-58 | a slider is shown exactly when configuration, `hass` and state object are present; it is disabled exactly when the state is `unavailable`; its position is undefined exactly when brightness is absent, and otherwise is `Position(brightness)`, which lies in 1..100 for brightness 0..255 |
| LightBrightnessTile.RoundedPercentIsIntegerDivision | src/panels/lovelace/tile-control/hui-light-brightness-tile-control.ts:43 | for integer brightness, `round(b * 100 / 255)` equals `(200 * b + 255) / 510` in integer division |
| LightBrightnessTile.PositionIsIntegerFormula | src/panels/lovelace/tile-control/hui-light-brightness-tile-control.ts:40-46 | the position equals `max((200 * b + 255) / 510, 1)` computed with integers only |
| LightBrightnessTile.NoHalfwayBrightness | src/panels/lovelace/tile-control/hui-light-brightness-tile-control.ts:43 | no integer brightness gives a percentage exactly halfway between two integers, so how halves are rounded never matters |
| LightBrightnessTile.RoundingMargin | src/panels/lovelace/tile-control/hui-light-brightness-tile-control.ts:43 | for integer brightness, `b * 100 / 255` lies at least 1/510 away from every rounding boundary `n + 0.5` |
| LightBrightnessTile.PositionEndpoints | src/panels/lovelace/tile-control/hui-light-brightness-tile-control.ts:42-45 | brightness 255 maps to 100, and brightness 0 maps to 1 |
| LightBrightnessTile.PositionIsMonotonic | src/panels/lovelace/tile-control/hui-light-brightness-tile-control.ts:42-45 | the position never decreases as brightness grows |
| LightBrightnessTile.LightBrightnessTileControl.constructor | src/panels/lovelace/tile-control/hui-light-brightness-tile-control.ts:16-20 | a new control has no `hass`, state object or configuration, and has requested nothing |
| LightBrightnessTile.LightBrightnessTileControl.SetConfig | src/panels/lovelace/tile-control/hui-light-brightness-tile-control.ts:28-33 | a missing configuration throws "Invalid configuration" and changes nothing; otherwise the configuration is stored unchanged |
| LightBrightnessTile.LightBrightnessTileControl.ValueChanged | src/panels/lovelace/tile-control/hui-light-brightness-tile-control.ts:60-68 | appends exactly one `light.turn_on` request, for this entity's `entity_id`, with `brightness_pct` equal to the slider value; without `hass` or a state object it throws and requests nothing |

## Left out

- Lit templates, styles, `hass.localize`, and the `ha-*` and `paper-*` widgets are not modelled. Neither are the entity picker's `includeDomains`, `isAdvanced`, or the reactive re-render machinery. Only the editors' choice of view is modelled.
- `processEditorEntities`, `entitiesConfigStruct` and `headerFooterConfigStructs` are not part of this model. They are functions the editor is given, so nothing is assumed about them.
- `fireEvent`, `ev.stopPropagation()` and event bubbling are not modelled. An emitted event is an entry in a log.
- `hass.callService` is a network call. Only its arguments are recorded.
- `UNAVAILABLE` comes from `src/data/entity`, which is not part of this model. It is taken to be the string "unavailable".
- `null` is not distinguished from `undefined`. Numbers are not represented. The editors store row, header and footer configurations that may contain numbers, but they store those objects as they are and never look inside them. Objects are compared structurally where JavaScript compares identity. This only matters when an edit carries an object equal to the one it replaces.
- A configuration is a `map`, which has no key order. In JavaScript a newly set key goes last and an existing key keeps its place, and that order shows in the YAML the host writes out. The model does not capture it.
- An absent `configValue` is represented by the empty string. JavaScript treats the two alike at every use in these editors.
- `PlantStatusCard.Getter` reads only the three getters. Any other `this["_" + key]` reads as `undefined`. Other underscore-prefixed members of the element, such as `_config`, are not modelled as values an edit could equal.
- The snapshot functions and lemmas of `EntitiesCard` that involve a sub-element edit require `RowsPresent`: a row list is held whenever a configuration is. The class keeps this as its invariant `Valid()`, because only `setConfig` sets a configuration and it sets the rows with it. A state breaking it cannot arise in the element.
- `EntitiesCard.EntitiesCardEditor.HandleSubElementChanged` requires a row sub-edit's `index` to be defined and to name an existing row, and so does `EntitiesCard.OnSubElementChanged`. The row editor only opens rows it lists. The code does not check the index, and JavaScript's behaviour for other indexes is not modelled: `splice` clamps the start, and assigning past the end grows a sparse array.
- `EntitiesCard.EntitiesCardEditor.HandleSubElementChanged` takes the event's `detail.config` as its argument. An event without a detail, which would throw, is not modelled.
- `EntitiesCard.OnValueChanged` does not model the fallback `this._configEntities!.concat()` on line 207. It is only reached when `ev.detail.entities` is truthy, so it is never evaluated.
- `LightBrightnessTile.Position` uses exact real arithmetic in place of floating point. Brightness is taken to be an integer. `NoHalfwayBrightness` shows that no exact value lies on a rounding boundary, and `RoundingMargin` that every exact value lies at least 1/510 away from one. Floating-point error is not modelled, so that it stays inside this margin is not proved.
- The host sets `hass` and `stateObj` directly. They are public fields of the classes, with no operation of their own.
