/**
 * src/cards/InfoCard.tsx: a card with a title bar (title, status text, icons lit by
 * switch-like entities) above columns of entity readings.
 */
module InfoCard {
  import opened JsText
  import opened HomeAssistant
  import opened ActionHandler
  import opened CardCommon
  import ValueCard

  datatype TitleBarIcon = TitleBarIcon(entity: string, icon: string, colorActive: Option<string>)

  datatype InfoRow = InfoRow(icon: string, valueEntity: Option<string>, iconColor: Option<string>, unit: Option<string>)

  datatype InfoColumn = InfoColumn(title: string, rows: seq<InfoRow>)

  datatype InfoCardConfig = InfoCardConfig(
    title: Option<string>,
    titleIcon: Option<string>,
    titleBarStatusEntity: Option<string>,
    titleBarIcons: Option<seq<TitleBarIcon>>,
    columns: Option<seq<InfoColumn>>,
    entity: Option<string>,
    tapAction: Option<TapAction>)

  /** `hass?.states?.[entity]?.state`: a direct lookup, without the checks of
      `lookupEntityInState`. */
  function DirectState(hass: Option<Hass>, entity: string): Option<string>
  {
    if hass.Some? && hass.value.states.Some? && entity in hass.value.states.value
    then Some(hass.value.states.value[entity].state) else None
  }

  /** For any non-empty entity id the direct lookup and `lookupEntityInState` agree. */
  lemma DirectStateAgrees(hass: Option<Hass>, entity: string)
    requires entity != ""
    ensures DirectState(hass, entity) == LookupState(hass, Some(entity))
  {
  }

  /** A title-bar icon takes its active colour while its entity is "on" and has one;
      otherwise it is "#ccc". */
  function TitleBarIconColor(ic: TitleBarIcon, hass: Option<Hass>, resolveColor: string -> string): (c: string)
    ensures DirectState(hass, ic.entity) == Some("on") && Truthy(ic.colorActive) ==> c == resolveColor(ic.colorActive.value)
    ensures !(DirectState(hass, ic.entity) == Some("on") && Truthy(ic.colorActive)) ==> c == resolveColor("#ccc")
  {
    var isActive := DirectState(hass, ic.entity) == Some("on");
    resolveColor(if isActive && Truthy(ic.colorActive) then ic.colorActive.value else "#ccc")
  }

  /** The status text: the status entity's state, `""` without one. */
  function Status(cfg: InfoCardConfig, hass: Option<Hass>): (s: string)
    ensures LookupState(hass, cfg.titleBarStatusEntity).Some? ==> s == LookupState(hass, cfg.titleBarStatusEntity).value
    ensures LookupState(hass, cfg.titleBarStatusEntity).None? ==> s == ""
  {
    Coalesce(LookupState(hass, Some(Coalesce(cfg.titleBarStatusEntity, ""))), "")
  }

  /** One rendered row; `unit` is `None` when not shown. */
  datatype RowView = RowView(icon: string, text: string, unit: Option<string>, style: ReadingStyle)

  /** A row: "--", greyed, without unit when the reading is unknown; else the state, with the
      unit when one is set. */
  function RowViewOf(row: InfoRow, hass: Option<Hass>, resolveColor: string -> string): (v: RowView)
    ensures var raw := LookupState(hass, row.valueEntity);
      (IsUnknown(raw) ==> v.text == "--" && v.unit.None?) &&
      (!IsUnknown(raw) ==> v.text == raw.value && v.unit == (if Truthy(row.unit) then row.unit else None)) &&
      v.style == StyleOf(IsUnknown(raw), row.iconColor, resolveColor)
    ensures v.icon == row.icon
  {
    var value := LookupState(hass, Some(Coalesce(row.valueEntity, "")));
    var unknown := IsUnknown(value);
    RowView(row.icon, if unknown then "--" else value.value, if !unknown && Truthy(row.unit) then row.unit else None,
      StyleOf(unknown, row.iconColor, resolveColor))
  }

  datatype ColumnView = ColumnView(title: string, rows: seq<RowView>)

  /** The data columns; none when `columns` is missing or empty. */
  function Columns(cfg: InfoCardConfig, hass: Option<Hass>, resolveColor: string -> string): (cs: seq<ColumnView>)
    ensures cfg.columns.None? ==> cs == []
    ensures cfg.columns.Some? ==> |cs| == |cfg.columns.value|
    ensures cfg.columns.Some? ==> forall c :: 0 <= c < |cs| ==>
      cs[c].title == cfg.columns.value[c].title && |cs[c].rows| == |cfg.columns.value[c].rows| &&
      forall r :: 0 <= r < |cs[c].rows| ==> cs[c].rows[r] == RowViewOf(cfg.columns.value[c].rows[r], hass, resolveColor)
  {
    match cfg.columns
    case None => []
    case Some(cols) =>
      seq(|cols|, c requires 0 <= c < |cols| =>
        ColumnView(cols[c].title, seq(|cols[c].rows|, r requires 0 <= r < |cols[c].rows| =>
          RowViewOf(cols[c].rows[r], hass, resolveColor))))
  }

  /** An info-card row and a value-card reading of the same entity, without a display
      expression, show the same text, unit and colours. */
  lemma RowMatchesValueCard(row: InfoRow, vc: ValueCard.ValueConfig, hass: Option<Hass>,
                            evaluate: (string, string, ExprVars) -> Option<string>, resolveColor: string -> string)
    requires vc.entity == row.valueEntity && vc.iconColor == row.iconColor && vc.unit == row.unit
    requires !Truthy(vc.displayValue)
    ensures var a := RowViewOf(row, hass, resolveColor);
      var b := ValueCard.ViewOf(vc, hass, evaluate, resolveColor);
      a.text == b.text && a.unit == b.unit && a.style == b.style
  {
  }

  /** A click runs the card's `tap_action` with its `entity`. */
  function Click(cfg: InfoCardConfig, hass: Option<Hass>): (r: Option<Command>)
    ensures cfg.tapAction.None? || hass.None? ==> r.None?
    ensures r.Some? && r.value.MoreInfo? ==>
      r.value.entityId == (if Truthy(cfg.tapAction.value.entity) then cfg.tapAction.value.entity else cfg.entity)
  {
    HandleTapAction(cfg.tapAction, hass, cfg.entity)
  }
}
