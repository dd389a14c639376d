/**
 * src/cards/ValueCard.tsx: a card listing one or more entity readings, each with a title,
 * an optional icon and unit, and an optional display expression; unknown readings show as
 * "--" in grey.
 */
module ValueCard {
  import opened JsText
  import opened HomeAssistant
  import opened ActionHandler
  import opened CardCommon

  datatype ValueConfig = ValueConfig(
    title: Option<string>,
    entity: Option<string>,
    icon: Option<string>,
    iconColor: Option<string>,
    unit: Option<string>,
    displayValue: Option<string>)

  /** The array format (`values`) or the simple format (the same fields at the top level). */
  datatype ValueCardConfig = ValueCardConfig(
    values: Option<seq<ValueConfig>>,
    title: Option<string>,
    entity: Option<string>,
    icon: Option<string>,
    iconColor: Option<string>,
    unit: Option<string>,
    displayValue: Option<string>,
    tapAction: Option<TapAction>)

  /** The readings shown: a non-empty `values` list as given; else one reading from the
      top-level fields when both `entity` and `title` are set; else none. */
  function Entries(cfg: ValueCardConfig): (vs: seq<ValueConfig>)
    ensures cfg.values.Some? && |cfg.values.value| > 0 ==> vs == cfg.values.value
    ensures !(cfg.values.Some? && |cfg.values.value| > 0) && Truthy(cfg.entity) && Truthy(cfg.title) ==>
      vs == [ValueConfig(cfg.title, cfg.entity, cfg.icon, cfg.iconColor, cfg.unit, cfg.displayValue)]
    ensures |vs| == 0 <==> !(cfg.values.Some? && |cfg.values.value| > 0) && !(Truthy(cfg.entity) && Truthy(cfg.title))
  {
    if cfg.values.Some? && |cfg.values.value| > 0 then cfg.values.value
    else if Truthy(cfg.entity) && Truthy(cfg.title) then
      [ValueConfig(cfg.title, cfg.entity, cfg.icon, cfg.iconColor, cfg.unit, cfg.displayValue)]
    else []
  }

  /** One rendered reading; `unit` and `icon` are `None` when not shown. */
  datatype ValueView = ValueView(text: string, unit: Option<string>, style: ReadingStyle, icon: Option<string>, title: Option<string>)

  /** `hass?.states` */
  function StatesOf(hass: Option<Hass>): Option<map<string, EntityState>>
  {
    if hass.Some? then hass.value.states else None
  }

  /** One reading: "--", greyed, without unit when unknown; otherwise the display
      expression's result (the raw state when it yields nothing) or the raw state, with the
      unit when one is set. */
  function ViewOf(vc: ValueConfig, hass: Option<Hass>, evaluate: (string, string, ExprVars) -> Option<string>,
                  resolveColor: string -> string): (v: ValueView)
    ensures var raw := LookupState(hass, vc.entity);
      (IsUnknown(raw) ==> v.text == "--" && v.unit.None?) &&
      (!IsUnknown(raw) && !Truthy(vc.displayValue) ==> v.text == raw.value) &&
      (!IsUnknown(raw) && Truthy(vc.displayValue) ==>
        v.text == Coalesce(evaluate(vc.displayValue.value, raw.value,
          EntityVars(LookupEntityInState(hass, vc.entity), StatesOf(hass))), raw.value)) &&
      (!IsUnknown(raw) ==> v.unit == (if Truthy(vc.unit) then vc.unit else None)) &&
      v.style == StyleOf(IsUnknown(raw), vc.iconColor, resolveColor)
    ensures v.icon.Some? <==> Truthy(vc.icon)
    ensures v.title == vc.title
  {
    var entityState := LookupEntityInState(hass, vc.entity);
    var raw := StateOf(entityState);
    var unknown := IsUnknown(raw);
    var text :=
      if unknown then "--"
      else if Truthy(vc.displayValue) then
        Coalesce(evaluate(vc.displayValue.value, raw.value, EntityVars(entityState, StatesOf(hass))), raw.value)
      else raw.value;
    ValueView(text, if !unknown && Truthy(vc.unit) then vc.unit else None, StyleOf(unknown, vc.iconColor, resolveColor),
      if Truthy(vc.icon) then vc.icon else None, vc.title)
  }

  /** `values.map(...)`: one view per reading, in order. */
  function Views(cfg: ValueCardConfig, hass: Option<Hass>, evaluate: (string, string, ExprVars) -> Option<string>,
                 resolveColor: string -> string): (vs: seq<ValueView>)
    ensures |vs| == |Entries(cfg)|
    ensures forall i :: 0 <= i < |vs| ==> vs[i] == ViewOf(Entries(cfg)[i], hass, evaluate, resolveColor)
  {
    var entries := Entries(cfg);
    seq(|entries|, i requires 0 <= i < |entries| => ViewOf(entries[i], hass, evaluate, resolveColor))
  }

  /** An unknown reading never reaches the display expression. */
  lemma UnknownSkipsExpression(vc: ValueConfig, hass: Option<Hass>, e1: (string, string, ExprVars) -> Option<string>,
                               e2: (string, string, ExprVars) -> Option<string>, resolveColor: string -> string)
    requires IsUnknown(LookupState(hass, vc.entity))
    ensures ViewOf(vc, hass, e1, resolveColor) == ViewOf(vc, hass, e2, resolveColor)
  {
  }

  /** A click runs the card's `tap_action` with the top-level `entity`. */
  function Click(cfg: ValueCardConfig, hass: Option<Hass>): (r: Option<Command>)
    ensures cfg.tapAction.None? || hass.None? ==> r.None?
    ensures r.Some? && r.value.MoreInfo? ==>
      r.value.entityId == (if Truthy(cfg.tapAction.value.entity) then cfg.tapAction.value.entity else cfg.entity)
  {
    HandleTapAction(cfg.tapAction, hass, cfg.entity)
  }

  /** In the array format without a top-level entity, a "more-info" action that names no
      entity opens the dialog for no entity at all, not for any of the listed readings. */
  lemma MoreInfoIgnoresListedEntities(cfg: ValueCardConfig, h: Hass, t: TapAction)
    requires cfg.tapAction == Some(t) && t.action == "more-info" && !Truthy(t.entity)
    requires cfg.entity.None?
    ensures Click(cfg, Some(h)) == Some(MoreInfo(None))
  {
  }
}
