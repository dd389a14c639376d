/**
 * src/cards/ButtonCard.tsx: whether the entity is on, which action a click runs, the
 * default toggle for lights and switches, and the background colour.
 */
module ButtonCard {
  import opened JsText
  import opened HomeAssistant
  import opened ActionHandler
  import opened Theme

  datatype ButtonCardConfig = ButtonCardConfig(
    entity: Option<string>,
    isLight: Option<bool>,
    tapAction: Option<TapAction>,
    tapActionActive: Option<TapAction>,
    tapActionInactive: Option<TapAction>)

  /** The entity's state, looked up with `entity ?? ""`. */
  function EntityStateOf(cfg: ButtonCardConfig, hass: Option<Hass>): Option<string>
  {
    LookupState(hass, Some(Coalesce(cfg.entity, "")))
  }

  /** `isOn`: the state is "on", "open", "active" or "unlocked". */
  predicate IsOn(state: Option<string>): (b: bool)
    ensures b ==> state.Some?
    ensures b <==> state.Some? && state.value in {"on", "open", "active", "unlocked"}
  {
    state == Some("on") || state == Some("open") || state == Some("active") || state == Some("unlocked")
  }

  /** The default action for an entity: `<domain>.toggle` with `service_data { entity_id }`
      for lights and switches, nothing for other domains. */
  function DefaultToggle(entityId: string): (a: Option<TapAction>)
    ensures a.Some? <==> Domain(entityId) == "light" || Domain(entityId) == "switch"
    ensures a.Some? ==> a.value == TapAction("call-service", None, None, Some(Domain(entityId) + ".toggle"),
      Some(EntityData(entityId)), None, None)
  {
    var domain := Domain(entityId);
    if domain == "light" || domain == "switch" then
      Some(TapAction("call-service", None, None, Some(domain + ".toggle"), Some(EntityData(entityId)), None, None))
    else None
  }

  /** The action `handleClick` picks: the state-specific action first (`tap_action_active`
      when on, `tap_action_inactive` when off), then `tap_action`, then, with an entity and
      hass, the default toggle. */
  function SelectAction(cfg: ButtonCardConfig, hass: Option<Hass>, isOn: bool): (a: Option<TapAction>)
    ensures isOn && cfg.tapActionActive.Some? ==> a == cfg.tapActionActive
    ensures !isOn && cfg.tapActionInactive.Some? ==> a == cfg.tapActionInactive
    ensures (if isOn then cfg.tapActionActive.None? else cfg.tapActionInactive.None?) && cfg.tapAction.Some? ==>
      a == cfg.tapAction
    ensures a.None? <==>
      (if isOn then cfg.tapActionActive.None? else cfg.tapActionInactive.None?) && cfg.tapAction.None? &&
      (!Truthy(cfg.entity) || hass.None? || DefaultToggle(cfg.entity.value).None?)
  {
    if isOn && cfg.tapActionActive.Some? then cfg.tapActionActive
    else if !isOn && cfg.tapActionInactive.Some? then cfg.tapActionInactive
    else if cfg.tapAction.Some? then cfg.tapAction
    else if Truthy(cfg.entity) && hass.Some? then DefaultToggle(cfg.entity.value)
    else None
  }

  /** `handleClick`: the command the chosen action leads to. */
  function HandleClick(cfg: ButtonCardConfig, hass: Option<Hass>): (r: Option<Command>)
    ensures hass.None? ==> r.None?
    ensures IsOn(EntityStateOf(cfg, hass)) && cfg.tapActionActive.Some? ==>
      r == HandleTapAction(cfg.tapActionActive, hass, cfg.entity)
    ensures !IsOn(EntityStateOf(cfg, hass)) && cfg.tapActionInactive.Some? ==>
      r == HandleTapAction(cfg.tapActionInactive, hass, cfg.entity)
    ensures ((if IsOn(EntityStateOf(cfg, hass)) then cfg.tapActionActive.None? else cfg.tapActionInactive.None?) &&
      cfg.tapAction.Some?) ==> r == HandleTapAction(cfg.tapAction, hass, cfg.entity)
  {
    HandleTapAction(SelectAction(cfg, hass, IsOn(EntityStateOf(cfg, hass))), hass, cfg.entity)
  }

  /** With no action configured, clicking a light or switch `d.rest` toggles it. */
  lemma DefaultToggleCommand(cfg: ButtonCardConfig, h: Hass, d: string, rest: string)
    requires d == "light" || d == "switch"
    requires cfg.entity == Some(d + "." + rest)
    requires cfg.tapAction.None? && cfg.tapActionActive.None? && cfg.tapActionInactive.None?
    ensures HandleClick(cfg, Some(h)) ==
      Some(CallService(ServiceCall(d, Some("toggle"), EntityData(d + "." + rest))))
  {
    var e := d + "." + rest;
    DomainOf(d, rest);
    var t := DefaultToggle(e).value;
    assert SelectAction(cfg, Some(h), IsOn(EntityStateOf(cfg, Some(h)))) == Some(t);
    ToggleCommand(t, h, cfg.entity, d, e);
  }

  /** The default toggle of an entity of domain `d` reaches the host as `d.toggle`. */
  lemma ToggleCommand(t: TapAction, h: Hass, entity: Option<string>, d: string, e: string)
    requires '.' !in d
    requires t == TapAction("call-service", None, None, Some(d + ".toggle"), Some(EntityData(e)), None, None)
    ensures HandleTapAction(Some(t), Some(h), entity) ==
      Some(CallService(ServiceCall(d, Some("toggle"), EntityData(e))))
  {
    assert d + ".toggle" == d + "." + "toggle";
    CallServiceAction(t, h, entity, d, "toggle");
    assert MergeServiceData(Some(EntityData(e)), None) == EntityData(e);
  }

  /** With no action configured, clicking an entity of any other domain does nothing. */
  lemma OtherDomainNoCommand(cfg: ButtonCardConfig, hass: Option<Hass>)
    requires cfg.tapAction.None? && cfg.tapActionActive.None? && cfg.tapActionInactive.None?
    requires cfg.entity.Some? ==> Domain(cfg.entity.value) != "light" && Domain(cfg.entity.value) != "switch"
    ensures HandleClick(cfg, hass).None?
  {
  }

  /** `isLight`: the configured flag when set, else whether the entity id starts with
      "light."; undefined (falsy) with neither. */
  function IsLight(cfg: ButtonCardConfig): (b: bool)
    ensures cfg.isLight.Some? ==> b == cfg.isLight.value
    ensures cfg.isLight.None? ==> (b <==> cfg.entity.Some? && StartsWith(cfg.entity.value, "light."))
  {
    match cfg.isLight
    case Some(v) => v
    case None => cfg.entity.Some? && StartsWith(cfg.entity.value, "light.")
  }

  /** An entity of the `light` domain counts as a light unless configured otherwise. */
  lemma LightDomainIsLight(cfg: ButtonCardConfig, rest: string)
    requires cfg.isLight.None? && cfg.entity == Some("light." + rest)
    ensures IsLight(cfg)
  {
    assert "light." <= "light." + rest;
  }

  /** The button's background: the active-light colour for a light that is on, the active
      colour for anything else that is on, the inactive colour when off. */
  function BackgroundColor(isOn: bool, isLight: bool, colors: CardColors): (c: string)
    ensures !isOn ==> c == colors.inactiveButtonBackground
    ensures isOn && isLight ==> c == colors.activeLightButtonBackground
    ensures isOn && !isLight ==> c == colors.activeButtonBackground
  {
    if isOn then (if isLight then colors.activeLightButtonBackground else colors.activeButtonBackground)
    else colors.inactiveButtonBackground
  }
}
