/**
 * src/cards/ThermostatButtonCard.tsx: a button showing the target temperature that opens
 * +/- controls, sets the temperature of an `input_number` or `climate` entity in steps of
 * 0.5 degrees, and toggles an optional auto-mode entity.
 */
module Thermostat {
  import opened JsText
  import opened HomeAssistant
  import opened Theme

  datatype ThermostatConfig = ThermostatConfig(entity: Option<string>, autoEntity: Option<string>)

  /** The three buttons whose background flashes when pressed. */
  datatype ThermoButton = Main | Plus | Minus

  /** `Number(entityState?.state) ?? 0`: `None` stands for NaN. `Number(undefined)` is NaN
      and NaN is not nullish, so the `?? 0` fallback never applies. */
  function TargetTemperature(cfg: ThermostatConfig, hass: Option<Hass>, toNumber: string -> Option<real>): (t: Option<real>)
    ensures LookupState(hass, Some(Coalesce(cfg.entity, ""))).None? ==> t.None?
    ensures LookupState(hass, Some(Coalesce(cfg.entity, ""))).Some? ==>
      t == toNumber(LookupState(hass, Some(Coalesce(cfg.entity, ""))).value)
  {
    match LookupState(hass, Some(Coalesce(cfg.entity, "")))
    case None => None
    case Some(s) => toNumber(s)
  }

  /** `isAutoOn`: an auto entity is configured and its state is "on". */
  predicate IsAutoOn(cfg: ThermostatConfig, hass: Option<Hass>): (b: bool)
    ensures b ==> hass.Some? && Truthy(cfg.autoEntity)
    ensures b <==> Truthy(cfg.autoEntity) && LookupState(hass, cfg.autoEntity) == Some("on")
  {
    Truthy(cfg.autoEntity) && LookupState(hass, cfg.autoEntity) == Some("on")
  }

  /** The step of the plus and minus buttons. */
  function Delta(b: ThermoButton): real
  {
    match b
    case Plus => 0.5
    case Minus => -0.5
    case Main => 0.0
  }

  /** A number as it reaches the host: NaN has no JSON form and is sent as `null`. */
  function JsonNumber(x: Option<real>): (j: Json)
    ensures x.Some? <==> j.JNum?
    ensures x.Some? ==> j == JNum(x.value)
    ensures x.None? ==> j == JNull
  {
    match x
    case Some(v) => JNum(v)
    case None => JNull
  }

  /** `adjustTemperature(delta)`: nothing without an entity or hass; otherwise
      `input_number.set_value` with `value` for an `input_number` entity and
      `climate.set_temperature` with `temperature` for any other entity, both carrying the
      target temperature plus `delta`. */
  function AdjustCall(cfg: ThermostatConfig, hass: Option<Hass>, toNumber: string -> Option<real>, delta: real): (c: Option<ServiceCall>)
    ensures c.None? <==> !Truthy(cfg.entity) || hass.None?
    ensures c.Some? ==> c.value.data.Keys == {"entity_id", if c.value.domain == "input_number" then "value" else "temperature"}
    ensures c.Some? ==> c.value.data["entity_id"] == JStr(cfg.entity.value)
    ensures c.Some? && Domain(cfg.entity.value) == "input_number" ==>
      c.value.domain == "input_number" && c.value.service == Some("set_value")
    ensures c.Some? && Domain(cfg.entity.value) != "input_number" ==>
      c.value.domain == "climate" && c.value.service == Some("set_temperature")
    ensures c.Some? ==> var t := TargetTemperature(cfg, hass, toNumber);
      c.value.data[if c.value.domain == "input_number" then "value" else "temperature"] ==
        JsonNumber(if t.Some? then Some(t.value + delta) else None)
  {
    if !Truthy(cfg.entity) || hass.None? then None
    else
      var t := TargetTemperature(cfg, hass, toNumber);
      var newTemp := JsonNumber(if t.Some? then Some(t.value + delta) else None);
      var entityId := cfg.entity.value;
      if Domain(entityId) == "input_number" then
        Some(ServiceCall("input_number", Some("set_value"), map["entity_id" := JStr(entityId), "value" := newTemp]))
      else
        Some(ServiceCall("climate", Some("set_temperature"), map["entity_id" := JStr(entityId), "temperature" := newTemp]))
  }

  /** Plus on a climate entity whose state reads as `t` asks for `t + 0.5`, minus for `t - 0.5`. */
  lemma ClimateStep(cfg: ThermostatConfig, h: Hass, toNumber: string -> Option<real>, rest: string, t: real)
    requires cfg.entity == Some("climate." + rest)
    requires TargetTemperature(cfg, Some(h), toNumber) == Some(t)
    ensures AdjustCall(cfg, Some(h), toNumber, Delta(Plus)) ==
      Some(ServiceCall("climate", Some("set_temperature"), map["entity_id" := JStr("climate." + rest), "temperature" := JNum(t + 0.5)]))
    ensures AdjustCall(cfg, Some(h), toNumber, Delta(Minus)) ==
      Some(ServiceCall("climate", Some("set_temperature"), map["entity_id" := JStr("climate." + rest), "temperature" := JNum(t - 0.5)]))
  {
    assert "climate." + rest == "climate" + "." + rest;
    DomainOf("climate", rest);
  }

  /** The plus and minus buttons are inverse steps: the two requests they send from the same
      host state differ by exactly one degree, whatever the entity's domain. */
  lemma PlusMinusOneDegree(cfg: ThermostatConfig, h: Hass, toNumber: string -> Option<real>)
    requires Truthy(cfg.entity)
    requires TargetTemperature(cfg, Some(h), toNumber).Some?
    ensures var p := AdjustCall(cfg, Some(h), toNumber, Delta(Plus)).value;
      var m := AdjustCall(cfg, Some(h), toNumber, Delta(Minus)).value;
      var key := if p.domain == "input_number" then "value" else "temperature";
      p.domain == m.domain && p.service == m.service && key in p.data && key in m.data &&
      p.data[key].JNum? && m.data[key].JNum? && p.data[key].n - m.data[key].n == 1.0
  {
  }

  /** `toggleAutoMode`: nothing without an auto entity or hass; `input_boolean.toggle` or
      `switch.toggle` for entities of those domains; nothing for any other domain. */
  function AutoToggleCall(cfg: ThermostatConfig, hass: Option<Hass>): (c: Option<ServiceCall>)
    ensures c.Some? <==> (Truthy(cfg.autoEntity) && hass.Some? &&
      (Domain(cfg.autoEntity.value) == "input_boolean" || Domain(cfg.autoEntity.value) == "switch"))
    ensures c.Some? ==> c.value == ServiceCall(Domain(cfg.autoEntity.value), Some("toggle"), EntityData(cfg.autoEntity.value))
  {
    if !Truthy(cfg.autoEntity) || hass.None? then None
    else
      var entityId := cfg.autoEntity.value;
      var domain := Domain(entityId);
      if domain == "input_boolean" then Some(ServiceCall("input_boolean", Some("toggle"), EntityData(entityId)))
      else if domain == "switch" then Some(ServiceCall("switch", Some("toggle"), EntityData(entityId)))
      else None
  }

  /** `getBackgroundColor(button)`: the active colour exactly for the pressed button. */
  function ButtonBackground(pressed: Option<ThermoButton>, b: ThermoButton, colors: CardColors): (c: string)
    ensures pressed == Some(b) ==> c == colors.activeButtonBackground
    ensures pressed != Some(b) ==> c == colors.inactiveButtonBackground
  {
    if pressed == Some(b) then colors.activeButtonBackground else colors.inactiveButtonBackground
  }

  /** The auto-mode icon is orange while auto mode is on and white otherwise. */
  function AutoIconColor(cfg: ThermostatConfig, hass: Option<Hass>): (c: string)
    ensures c == "#ff8c00" <==> IsAutoOn(cfg, hass)
    ensures !IsAutoOn(cfg, hass) ==> c == "white"
  {
    if IsAutoOn(cfg, hass) then "#ff8c00" else "white"
  }

  /** The card's local state: whether the +/- controls are open and which button shows
      as pressed. */
  class ThermostatControls {
    const cfg: ThermostatConfig
    var showControls: bool
    var pressed: Option<ThermoButton>

    constructor(cfg: ThermostatConfig)
      ensures this.cfg == cfg && !showControls && pressed.None?
    {
      this.cfg := cfg;
      showControls := false;
      pressed := None;
    }

    /** A click on the card marks it pressed and opens or closes the controls. */
    method HandleClick()
      modifies this
      ensures pressed == Some(Main)
      ensures showControls == !old(showControls)
    {
      pressed := Some(Main);
      showControls := !showControls;
    }

    /** The 150 ms timer after a press clears the pressed marker. */
    method PressTimerElapsed()
      modifies this
      ensures pressed.None? && showControls == old(showControls)
    {
      pressed := None;
    }

    /** A click on the overlay closes the controls. */
    method CloseOverlay()
      modifies this
      ensures !showControls && pressed == old(pressed)
    {
      showControls := false;
    }

    /** The plus or minus button: nothing happens without an entity or hass; otherwise the
        button shows as pressed and the temperature request is returned. */
    method Adjust(b: ThermoButton, hass: Option<Hass>, toNumber: string -> Option<real>) returns (call: Option<ServiceCall>)
      requires b != Main
      modifies this
      ensures call == AdjustCall(cfg, hass, toNumber, Delta(b))
      ensures call.None? ==> pressed == old(pressed)
      ensures call.Some? ==> pressed == Some(b)
      ensures showControls == old(showControls)
    {
      if !Truthy(cfg.entity) || hass.None? {
        return None;
      }
      pressed := Some(b);
      call := AdjustCall(cfg, hass, toNumber, Delta(b));
    }
  }
}
