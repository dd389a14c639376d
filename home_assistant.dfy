/**
 * The slice of the dashboard host the cards see: a snapshot of entity states, the
 * lookup primitive every card uses (`lookupEntityInState` of src/utils/widgetUtils.ts),
 * and service calls, which the model returns as values instead of performing them.
 */
module HomeAssistant {
  import opened JsText

  /** JSON-like payloads of service calls (`service_data`, `target`). */
  datatype Json =
    | JNull
    | JBool(b: bool)
    | JNum(n: real)
    | JStr(s: string)
    | JArr(items: seq<Json>)
    | JObj(fields: map<string, Json>)

  /** An entity's state object: its state string and its attributes (as display text). */
  datatype EntityState = EntityState(state: string, attributes: map<string, string>)

  /** The host object; its `states` table is reached through optional chaining in the source. */
  datatype Hass = Hass(states: Option<map<string, EntityState>>)

  /** A request `hass.callService(domain, service, data)`; `service` is undefined when the
      source passes the missing second piece of a split. */
  datatype ServiceCall = ServiceCall(domain: string, service: Option<string>, data: map<string, Json>)

  /** `{ entity_id: e }` */
  function EntityData(e: string): map<string, Json>
  {
    map["entity_id" := JStr(e)]
  }

  /** `lookupEntityInState(hass, entityId)`. */
  function LookupEntityInState(hass: Option<Hass>, entityId: Option<string>): (r: Option<EntityState>)
    ensures hass.None? ==> r.None?
    ensures !Truthy(entityId) ==> r.None?
    ensures hass.Some? && hass.value.states.None? ==> r.None?
    ensures r.Some? <==>
      hass.Some? && Truthy(entityId) && hass.value.states.Some? && entityId.value in hass.value.states.value
    ensures r.Some? ==> r.value == hass.value.states.value[entityId.value]
  {
    if hass.None? || !Truthy(entityId) then None
    else
      match hass.value.states
      case None => None
      case Some(table) => if entityId.value in table then Some(table[entityId.value]) else None
  }

  /** `e?.state` */
  function StateOf(e: Option<EntityState>): Option<string>
  {
    match e
    case Some(x) => Some(x.state)
    case None => None
  }

  /** `lookupEntityInState(hass, id)?.state` */
  function LookupState(hass: Option<Hass>, entityId: Option<string>): Option<string>
  {
    StateOf(LookupEntityInState(hass, entityId))
  }

  /** `entityId.split(".")[0]`, the domain of an entity id. */
  function Domain(entityId: string): string
  {
    Head(entityId, '.')
  }

  /** The domain of `d.rest` is `d` when `d` has no dot. */
  lemma DomainOf(d: string, rest: string)
    requires '.' !in d
    ensures Domain(d + "." + rest) == d
  {
    assert d + "." + rest == d + ['.'] + rest;
    SplitPrefix(d, '.', rest);
  }
}
