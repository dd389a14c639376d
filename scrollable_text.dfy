/**
 * src/cards/ScrollableTextCard.tsx: a fixed-height card showing a block of text taken from
 * an entity attribute, an entity state or the configuration.
 */
module ScrollableText {
  import opened JsText
  import opened HomeAssistant
  import opened ActionHandler

  datatype ScrollableTextConfig = ScrollableTextConfig(
    title: Option<string>,
    titleIcon: Option<string>,
    entity: Option<string>,
    attribute: Option<string>,
    text: Option<string>,
    height: Option<int>,
    tapAction: Option<TapAction>)

  /** The text shown: with an entity, an attribute and a known entity, the attribute's value
      (`"none"` when it is missing or empty); else a non-empty entity state; else the static
      text, `""` without one. */
  function TextContent(cfg: ScrollableTextConfig, hass: Option<Hass>): (t: string)
    ensures var e := LookupEntityInState(hass, cfg.entity);
      (Truthy(cfg.entity) && Truthy(cfg.attribute) && e.Some? ==>
        t == (if cfg.attribute.value in e.value.attributes && e.value.attributes[cfg.attribute.value] != ""
              then e.value.attributes[cfg.attribute.value] else "none")) &&
      (!(Truthy(cfg.entity) && Truthy(cfg.attribute) && e.Some?) && e.Some? && e.value.state != "" ==>
        t == e.value.state) &&
      (e.None? || (!(Truthy(cfg.entity) && Truthy(cfg.attribute)) && e.value.state == "") ==>
        t == OrElse(cfg.text, ""))
  {
    var entityState := LookupEntityInState(hass, Some(Coalesce(cfg.entity, "")));
    if Truthy(cfg.entity) && Truthy(cfg.attribute) && entityState.Some? then
      var attrs := entityState.value.attributes;
      OrElse(if cfg.attribute.value in attrs then Some(attrs[cfg.attribute.value]) else None, "none")
    else if entityState.Some? && entityState.value.state != "" then entityState.value.state
    else OrElse(cfg.text, "")
  }

  /** The static text is only a fallback: once the entity is known and either an attribute
      is configured or its state is non-empty, the static text does not matter. */
  lemma StaticTextOnlyAsFallback(cfg: ScrollableTextConfig, hass: Option<Hass>, other: Option<string>)
    requires LookupEntityInState(hass, cfg.entity).Some?
    requires Truthy(cfg.attribute) || LookupEntityInState(hass, cfg.entity).value.state != ""
    ensures TextContent(cfg, hass) == TextContent(cfg.(text := other), hass)
  {
  }

  /** `height || 200` pixels. */
  function CardHeight(cfg: ScrollableTextConfig): (h: int)
    ensures cfg.height.Some? && cfg.height.value != 0 ==> h == cfg.height.value
    ensures cfg.height.None? || cfg.height == Some(0) ==> h == 200
  {
    match cfg.height
    case Some(v) => if v != 0 then v else 200
    case None => 200
  }

  /** A click on the text runs the card's `tap_action` with its `entity`. */
  function Click(cfg: ScrollableTextConfig, hass: Option<Hass>): (r: Option<Command>)
    ensures cfg.tapAction.None? || hass.None? ==> r.None?
    ensures r.Some? && r.value.MoreInfo? ==>
      r.value.entityId == (if Truthy(cfg.tapAction.value.entity) then cfg.tapAction.value.entity else cfg.entity)
  {
    HandleTapAction(cfg.tapAction, hass, cfg.entity)
  }
}
