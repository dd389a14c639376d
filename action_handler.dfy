/**
 * `handleTapAction` of src/utils/actionHandler.ts: the case analysis over a configured
 * action, returning the command the source would perform on the host.
 */
module ActionHandler {
  import opened JsText
  import opened HomeAssistant

  /** A configured action; absent optional fields are `None`. */
  datatype TapAction = TapAction(
    action: string,
    navigationPath: Option<string>,
    urlPath: Option<string>,
    service: Option<string>,
    serviceData: Option<map<string, Json>>,
    target: Option<map<string, Json>>,
    entity: Option<string>)

  /** What the handler does on the host. */
  datatype Command =
    | Navigate(path: string)                       // history.pushState, then "location-changed"
    | OpenUrl(url: string, windowName: string)     // window.open(url, name)
    | CallService(call: ServiceCall)               // hass.callService(domain, service, data)
    | MoreInfo(entityId: Option<string>)           // the "hass-more-info" event

  /** `{ ...service_data }` followed by `Object.assign(serviceData, target)` when a target is given. */
  function MergeServiceData(serviceData: Option<map<string, Json>>, target: Option<map<string, Json>>): (r: map<string, Json>)
    ensures target.Some? ==> forall k :: k in target.value ==> k in r && r[k] == target.value[k]
    ensures serviceData.Some? ==>
      forall k :: k in serviceData.value && (target.None? || k !in target.value) ==> k in r && r[k] == serviceData.value[k]
    ensures forall k :: k in r ==> (serviceData.Some? && k in serviceData.value) || (target.Some? && k in target.value)
  {
    var copy := match serviceData case Some(d) => d case None => map[];
    match target
    case Some(t) => copy + t
    case None => copy
  }

  /** `const [domain, service] = s.split(".")`: the first two pieces, the second possibly missing. */
  function SplitService(s: string): (ds: (string, Option<string>))
    ensures ds.0 == Domain(s)
    ensures ds.1.Some? <==> '.' in s
    ensures ds.1.Some? ==> ds.1.value == Head(s[|ds.0| + 1..], '.')
  {
    var parts := Split(s, '.');
    SplitAtFirst(s, '.');
    (parts[0], if |parts| > 1 then Some(parts[1]) else None)
  }

  /** `handleTapAction(tapAction, hass, entityId)`: `None` when nothing happens. */
  function HandleTapAction(tap: Option<TapAction>, hass: Option<Hass>, entityId: Option<string>): (r: Option<Command>)
    ensures tap.None? || hass.None? ==> r.None?
    ensures r.Some? && r.value.Navigate? <==>
      tap.Some? && hass.Some? && tap.value.action == "navigate" && Truthy(tap.value.navigationPath)
    ensures r.Some? && r.value.OpenUrl? <==>
      tap.Some? && hass.Some? && tap.value.action == "url" && Truthy(tap.value.urlPath)
    ensures r.Some? && r.value.CallService? <==>
      tap.Some? && hass.Some? && tap.value.action == "call-service" && Truthy(tap.value.service)
    ensures r.Some? && r.value.MoreInfo? <==>
      tap.Some? && hass.Some? && tap.value.action == "more-info"
    ensures r.Some? && r.value.Navigate? ==> r.value.path == tap.value.navigationPath.value
    ensures r.Some? && r.value.OpenUrl? ==> r.value == OpenUrl(tap.value.urlPath.value, "_blank")
    ensures r.Some? && r.value.CallService? ==>
      r.value.call.domain == Domain(tap.value.service.value) &&
      r.value.call.service == SplitService(tap.value.service.value).1 &&
      r.value.call.data == MergeServiceData(tap.value.serviceData, tap.value.target)
    ensures r.Some? && r.value.MoreInfo? ==>
      r.value.entityId == (if Truthy(tap.value.entity) then tap.value.entity else entityId)
  {
    if tap.None? || hass.None? then None
    else
      var t := tap.value;
      match t.action
      case "navigate" =>
        if Truthy(t.navigationPath) then Some(Navigate(t.navigationPath.value)) else None
      case "url" =>
        if Truthy(t.urlPath) then Some(OpenUrl(t.urlPath.value, "_blank")) else None
      case "call-service" =>
        if Truthy(t.service) then
          var (domain, service) := SplitService(t.service.value);
          Some(CallService(ServiceCall(domain, service, MergeServiceData(t.serviceData, t.target))))
        else None
      case "more-info" =>
        Some(MoreInfo(if Truthy(t.entity) then t.entity else entityId))
      case _ => None
  }

  /** An action calling `d.s` for a dot-free domain and service reaches the host as
      exactly that service, with the merged data. */
  lemma CallServiceAction(t: TapAction, h: Hass, entityId: Option<string>, d: string, s: string)
    requires t.action == "call-service" && t.service == Some(d + "." + s)
    requires '.' !in d && '.' !in s
    ensures HandleTapAction(Some(t), Some(h), entityId) ==
      Some(CallService(ServiceCall(d, Some(s), MergeServiceData(t.serviceData, t.target))))
  {
    assert d + "." + s == d + ['.'] + s;
    SplitPrefix(d, '.', s);
    SplitNoSep(s, '.');
  }

  /** A service string without a dot yields an undefined service name. */
  lemma ServiceWithoutDot(s: string)
    requires '.' !in s
    ensures SplitService(s) == (s, None)
  {
    SplitNoSep(s, '.');
  }
}
