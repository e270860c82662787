/** The editor events and the sub-element editor descriptor shared by the card
    configuration editors. */
module EditorTypes {
  import opened ConfigValues

  /** The form control an edit event comes from. `configValue` names the
      configuration key the control edits; the empty string stands for an
      absent `configValue`, which every use in the editors treats alike.
      `checked` is set by switches only. */
  datatype EditorTarget = EditorTarget(configValue: string, checked: Option<bool>, value: Value)

  /** The `detail` of an edit event: a sub-editor's `config`, an input's
      `value`, and the row editor's new `entities` list. */
  datatype EventDetail = EventDetail(config: Value, value: Value, entities: Option<seq<Value>>)

  /** An edit event; a plain DOM `change` event carries no detail. */
  datatype EditorEvent = EditorEvent(target: EditorTarget, detail: Option<EventDetail>)

  /** What the focused sub-element editor is editing: `kind` is the descriptor's
      `type` ("row", "header" or "footer"), `index` the row's position for a
      row, and `elementConfig` the configuration being edited. */
  datatype SubElementEditorConfig = SubElementEditorConfig(kind: string, index: Option<int>, elementConfig: Value)
}
