/**
 * src/cards/NotificationsCard.tsx: which notifications are shown (the `activeNotifications`
 * map / filter / sort / slice pipeline), the templates collected for evaluation, the icon
 * and severity colour tables, and what a click on a notification does.
 */
module Notifications {
  import opened JsText
  import opened HomeAssistant
  import opened ActionHandler
  import opened TemplateHelper

  /** One configured notification; absent fields are `None`. `enabled` may hold a boolean
      or a template string. */
  datatype NotificationConfig = NotificationConfig(
    kind: string,
    severity: Option<string>,
    enabledEntity: Option<string>,
    enabled: Option<JsValue>,
    silenceEntity: Option<string>,
    textEntity: Option<string>,
    text: Option<string>,
    priority: int,
    tapAction: Option<TapAction>)

  /** A notification after the `map` step; `isEnabled` is the truthiness the filter tests. */
  datatype Annotated = Annotated(config: NotificationConfig, isEnabled: bool, isSilenced: bool, text: string)

  // ---------------------------------------------------------------------------
  // templates

  /** The `enabled` field is a template string to be evaluated by the host. */
  predicate HasTemplate(n: NotificationConfig)
  {
    n.enabled.Some? && IsTemplate(n.enabled.value)
  }

  function RequestIndices(requests: seq<TemplateRequest>): set<nat>
  {
    set r | r in requests :: r.index
  }

  /** The loop of `evaluateAllTemplates` collecting `{ index, template }` for every
      notification whose `enabled` is a template. */
  method CollectTemplates(ns: seq<NotificationConfig>) returns (requests: seq<TemplateRequest>)
    ensures forall k :: 0 <= k < |requests| ==>
      requests[k].index < |ns| && HasTemplate(ns[requests[k].index]) &&
      requests[k].template == ns[requests[k].index].enabled.value.s
    ensures forall a, b :: 0 <= a < b < |requests| ==> requests[a].index < requests[b].index
    ensures forall i :: 0 <= i < |ns| && HasTemplate(ns[i]) ==> i in RequestIndices(requests)
  {
    requests := [];
    for i := 0 to |ns|
      invariant CollectedUpTo(ns, requests, i)
    {
      var notification := ns[i];
      if notification.enabled.Some? && notification.enabled.value.JsString? && IsTemplate(notification.enabled.value) {
        CollectStep(ns, requests, i);
        requests := requests + [TemplateRequest(i, notification.enabled.value.s)];
      }
    }
  }

  /** `requests` holds, in increasing index order, a request for exactly the template
      notifications before index `i`. */
  predicate CollectedUpTo(ns: seq<NotificationConfig>, requests: seq<TemplateRequest>, i: nat)
  {
    i <= |ns| &&
    (forall k :: 0 <= k < |requests| ==>
      requests[k].index < i && HasTemplate(ns[requests[k].index]) &&
      requests[k].template == ns[requests[k].index].enabled.value.s) &&
    (forall a, b :: 0 <= a < b < |requests| ==> requests[a].index < requests[b].index) &&
    (forall j :: 0 <= j < i && HasTemplate(ns[j]) ==> j in RequestIndices(requests))
  }

  lemma CollectStep(ns: seq<NotificationConfig>, requests: seq<TemplateRequest>, i: nat)
    requires CollectedUpTo(ns, requests, i) && i < |ns| && HasTemplate(ns[i])
    ensures CollectedUpTo(ns, requests + [TemplateRequest(i, ns[i].enabled.value.s)], i + 1)
  {
    var next := requests + [TemplateRequest(i, ns[i].enabled.value.s)];
    assert RequestIndices(next) == RequestIndices(requests) + {i};
    assert forall k :: 0 <= k < |requests| ==> next[k] == requests[k];
  }

  /** One round of `evaluateAllTemplates`: the new `templateResults`, or `None` when there is
      no template and the previous results stay in place. */
  method EvaluateAllTemplates(ns: seq<NotificationConfig>, evaluate: string -> Option<string>)
    returns (results: Option<map<nat, bool>>)
    ensures results.None? <==> forall i :: 0 <= i < |ns| ==> !HasTemplate(ns[i])
    ensures results.Some? ==> forall i :: 0 <= i < |ns| && HasTemplate(ns[i]) ==>
      i in results.value && results.value[i] == TemplateBool(evaluate(ns[i].enabled.value.s))
    ensures results.Some? ==> forall i :: i in results.value ==> i < |ns| && HasTemplate(ns[i])
  {
    var requests := CollectTemplates(ns);
    if |requests| > 0 {
      var r := EvaluateTemplates(requests, evaluate);
      forall i | 0 <= i < |ns| && HasTemplate(ns[i])
        ensures i in r && r[i] == TemplateBool(evaluate(ns[i].enabled.value.s))
      {
        var req :| req in requests && req.index == i;
        var k :| 0 <= k < |requests| && requests[k] == req;
      }
      forall i | i in r
        ensures i < |ns| && HasTemplate(ns[i])
      {
        var req :| req in requests && req.index == i;
        var k :| 0 <= k < |requests| && requests[k] == req;
      }
      assert HasTemplate(ns[requests[0].index]);
      results := Some(r);
    } else {
      results := None;
    }
  }

  // ---------------------------------------------------------------------------
  // the map step

  /** An entity's state reads as on: "on" or "true". */
  predicate StateIsOn(state: Option<string>)
  {
    state == Some("on") || state == Some("true")
  }

  /** Whether a notification is enabled: an `enabled_entity` alone decides when set; else a
      template `enabled` uses the evaluated result at the notification's index, false when
      missing; else a static `enabled` counts by truthiness; with neither, disabled. */
  predicate IsEnabled(n: NotificationConfig, idx: nat, hass: Option<Hass>, templateResults: map<nat, bool>): (b: bool)
    ensures b ==> Truthy(n.enabledEntity) || n.enabled.Some?
    ensures Truthy(n.enabledEntity) && b ==> hass.Some?
  {
    if Truthy(n.enabledEntity) then StateIsOn(LookupState(hass, n.enabledEntity))
    else if n.enabled.Some? then
      if IsTemplate(n.enabled.value) then idx in templateResults && templateResults[idx]
      else JsTruthy(n.enabled.value)
    else false
  }

  /** A notification is silenced when its `silence_entity` reads as on. */
  predicate IsSilenced(n: NotificationConfig, hass: Option<Hass>): (b: bool)
    ensures b ==> hass.Some? && Truthy(n.silenceEntity)
    ensures b <==> Truthy(n.silenceEntity) && LookupState(hass, n.silenceEntity) in {Some("on"), Some("true")}
  {
    Truthy(n.silenceEntity) && StateIsOn(LookupState(hass, n.silenceEntity))
  }

  /** The sources of `enabled` in order of precedence: a set `enabled_entity` alone decides,
      whatever `enabled` and the template results say; failing that, a template `enabled`
      is decided by its result alone, whatever the entity states; failing that, a static
      `enabled` is decided by its own truthiness. */
  lemma EnabledPrecedence(n: NotificationConfig, other: Option<JsValue>, idx: nat,
                          hass: Option<Hass>, hass2: Option<Hass>,
                          templateResults: map<nat, bool>, templateResults2: map<nat, bool>)
    ensures Truthy(n.enabledEntity) ==>
      IsEnabled(n, idx, hass, templateResults) == IsEnabled(n.(enabled := other), idx, hass, templateResults2)
    ensures !Truthy(n.enabledEntity) && n.enabled.Some? && IsTemplate(n.enabled.value) ==>
      IsEnabled(n, idx, hass, templateResults) == IsEnabled(n, idx, hass2, templateResults) &&
      (IsEnabled(n, idx, hass, templateResults) <==> idx in templateResults && templateResults[idx])
    ensures !Truthy(n.enabledEntity) && n.enabled.Some? && !IsTemplate(n.enabled.value) ==>
      IsEnabled(n, idx, hass, templateResults) == IsEnabled(n, idx, hass2, templateResults2) &&
      (IsEnabled(n, idx, hass, templateResults) <==> JsTruthy(n.enabled.value))
  {
  }

  /** The text shown: the `text_entity` state when it is non-empty, else the static text,
      else "". */
  function DisplayText(n: NotificationConfig, hass: Option<Hass>): (t: string)
    ensures Truthy(n.textEntity) && Truthy(LookupState(hass, n.textEntity)) ==> t == LookupState(hass, n.textEntity).value
    ensures !(Truthy(n.textEntity) && Truthy(LookupState(hass, n.textEntity))) ==> t == OrElse(n.text, "")
  {
    var text := OrElse(n.text, "");
    if Truthy(n.textEntity) then OrElse(LookupState(hass, n.textEntity), text) else text
  }

  function Annotate(n: NotificationConfig, idx: nat, hass: Option<Hass>, templateResults: map<nat, bool>): Annotated
  {
    Annotated(n, IsEnabled(n, idx, hass, templateResults), IsSilenced(n, hass), DisplayText(n, hass))
  }

  // ---------------------------------------------------------------------------
  // filter, sort, slice

  predicate Shown(a: Annotated)
  {
    a.isEnabled && !a.isSilenced
  }

  /** `.filter(n => n.isEnabled && !n.isSilenced)` */
  function FilterShown(s: seq<Annotated>): (r: seq<Annotated>)
    ensures multiset(r) <= multiset(s)
    ensures forall x :: x in r <==> x in s && Shown(x)
    decreases |s|
  {
    if |s| == 0 then []
    else
      var rest := FilterShown(s[1..]);
      assert s == [s[0]] + s[1..];
      if Shown(s[0]) then [s[0]] + rest else rest
  }

  /** The filter works element by element: it keeps one element exactly when it is shown. */
  lemma FilterShownSingleton(x: Annotated)
    ensures FilterShown([x]) == if Shown(x) then [x] else []
  {
    assert [x][1..] == [];
  }

  /** The filter distributes over concatenation, so it keeps the configured order and every
      repetition. */
  lemma {:induction false} FilterShownAppend(a: seq<Annotated>, b: seq<Annotated>)
    ensures FilterShown(a + b) == FilterShown(a) + FilterShown(b)
    decreases |a|
  {
    if |a| > 0 {
      assert (a + b)[1..] == a[1..] + b;
      FilterShownAppend(a[1..], b);
    } else {
      assert a + b == b;
    }
  }

  predicate SortedByPriority(s: seq<Annotated>)
  {
    forall i, j :: 0 <= i < j < |s| ==> s[i].config.priority <= s[j].config.priority
  }

  /** Inserts `x` before the first element whose priority is not below its own. */
  function Insert(x: Annotated, s: seq<Annotated>): (r: seq<Annotated>)
    ensures multiset(r) == multiset(s) + multiset{x}
    decreases |s|
  {
    if |s| == 0 || s[0].config.priority >= x.config.priority then [x] + s
    else
      assert s == [s[0]] + s[1..];
      [s[0]] + Insert(x, s[1..])
  }

  lemma {:induction false} InsertSorted(x: Annotated, s: seq<Annotated>)
    requires SortedByPriority(s)
    ensures SortedByPriority(Insert(x, s))
    ensures Insert(x, s)[0] == x || (|s| > 0 && Insert(x, s)[0] == s[0])
    decreases |s|
  {
    if |s| > 0 && s[0].config.priority < x.config.priority {
      var r := Insert(x, s[1..]);
      InsertSorted(x, s[1..]);
      assert s[0].config.priority <= r[0].config.priority by {
        if r[0] != x {
          assert s[1..][0] == s[1];
        }
      }
      assert forall j :: 0 <= j < |r| ==> r[0].config.priority <= r[j].config.priority;
      assert forall j :: 0 < j < |Insert(x, s)| ==> Insert(x, s)[j] == r[j - 1];
    }
  }

  /** `.sort((a, b) => a.priority - b.priority)`, which JavaScript performs stably: an
      insertion sort. */
  function SortByPriority(s: seq<Annotated>): (r: seq<Annotated>)
    ensures multiset(r) == multiset(s)
    decreases |s|
  {
    if |s| == 0 then []
    else
      assert s == [s[0]] + s[1..];
      Insert(s[0], SortByPriority(s[1..]))
  }

  /** The sort orders by ascending priority. */
  lemma {:induction false} SortSorted(s: seq<Annotated>)
    ensures SortedByPriority(SortByPriority(s))
    decreases |s|
  {
    if |s| > 0 {
      SortSorted(s[1..]);
      InsertSorted(s[0], SortByPriority(s[1..]));
    }
  }

  /** The elements of priority `p`, in order. */
  function WithPriority(s: seq<Annotated>, p: int): seq<Annotated>
    decreases |s|
  {
    if |s| == 0 then []
    else (if s[0].config.priority == p then [s[0]] else []) + WithPriority(s[1..], p)
  }

  lemma {:induction false} InsertStable(x: Annotated, s: seq<Annotated>, p: int)
    ensures WithPriority(Insert(x, s), p) == (if x.config.priority == p then [x] else []) + WithPriority(s, p)
    decreases |s|
  {
    if |s| == 0 || s[0].config.priority >= x.config.priority {
      WithPriorityCons(x, s, p);
    } else {
      InsertStable(x, s[1..], p);
      WithPriorityCons(s[0], Insert(x, s[1..]), p);
      WithPriorityCons(s[0], s[1..], p);
      assert [s[0]] + s[1..] == s;
    }
  }

  /** One step of WithPriority. */
  lemma WithPriorityCons(y: Annotated, t: seq<Annotated>, p: int)
    ensures WithPriority([y] + t, p) == (if y.config.priority == p then [y] else []) + WithPriority(t, p)
  {
    assert ([y] + t)[1..] == t;
  }

  /** The sort is stable: notifications of equal priority keep their configured order. */
  lemma {:induction false} SortStable(s: seq<Annotated>, p: int)
    ensures WithPriority(SortByPriority(s), p) == WithPriority(s, p)
    decreases |s|
  {
    if |s| > 0 {
      SortStable(s[1..], p);
      InsertStable(s[0], SortByPriority(s[1..]), p);
    }
  }

  /** Cutting a list to a prefix cuts each priority's elements to a prefix. */
  lemma {:induction false} WithPriorityPrefix(s: seq<Annotated>, k: nat, p: int)
    requires k <= |s|
    ensures WithPriority(s[..k], p) <= WithPriority(s, p)
    decreases k
  {
    if k > 0 {
      WithPriorityPrefix(s[1..], k - 1, p);
      assert s[..k] == [s[0]] + s[1..][..k - 1];
      assert s == [s[0]] + s[1..];
      WithPriorityCons(s[0], s[1..][..k - 1], p);
      WithPriorityCons(s[0], s[1..], p);
    }
  }

  /** `.slice(0, 4)` */
  function Take(s: seq<Annotated>, k: nat): (r: seq<Annotated>)
    ensures |r| == if |s| < k then |s| else k
    ensures r <= s
  {
    if |s| <= k then s else s[..k]
  }

  /** The `.map` step: every notification annotated, with its index in the configured list. */
  function AnnotateAll(ns: seq<NotificationConfig>, hass: Option<Hass>, templateResults: map<nat, bool>): (r: seq<Annotated>)
    ensures |r| == |ns| && forall i :: 0 <= i < |ns| ==> r[i] == Annotate(ns[i], i, hass, templateResults)
  {
    seq(|ns|, i requires 0 <= i < |ns| => Annotate(ns[i], i, hass, templateResults))
  }

  /** `.filter(...).sort(...).slice(0, 4)` */
  function Pipeline(annotated: seq<Annotated>): seq<Annotated>
  {
    Take(SortByPriority(FilterShown(annotated)), 4)
  }

  /** `activeNotifications` for the configured list (`[]` when absent). */
  function ActiveNotifications(ns: Option<seq<NotificationConfig>>, hass: Option<Hass>, templateResults: map<nat, bool>): (r: seq<Annotated>)
    ensures |r| <= 4
  {
    var list := match ns case Some(l) => l case None => [];
    Pipeline(AnnotateAll(list, hass, templateResults))
  }

  /** The first `k` elements of a sorted list have priorities no greater than those of the
      elements left out. */
  lemma SortedPrefixFirst(sorted: seq<Annotated>, k: nat)
    requires SortedByPriority(sorted)
    ensures SortedByPriority(Take(sorted, k))
    ensures forall x, y :: x in Take(sorted, k) && y in multiset(sorted) - multiset(Take(sorted, k)) ==>
      x.config.priority <= y.config.priority
  {
    var r := Take(sorted, k);
    LeftOutIsRest(sorted, k);
    forall x, y | x in r && y in multiset(sorted) - multiset(r)
      ensures x.config.priority <= y.config.priority
    {
      var j :| |r| <= j < |sorted| && sorted[j] == y;
      var i :| 0 <= i < |r| && r[i] == x;
      assert sorted[i] == x;
    }
  }

  /** The elements `Take` leaves out are the ones after the prefix. */
  lemma LeftOutIsRest(s: seq<Annotated>, k: nat)
    ensures forall y :: y in multiset(s) - multiset(Take(s, k)) ==>
      exists j :: |Take(s, k)| <= j < |s| && s[j] == y
  {
    var rest := s[|Take(s, k)|..];
    TakeSplit(s, k);
    assert multiset(s) - multiset(Take(s, k)) == multiset(rest);
    forall y | y in multiset(rest)
      ensures exists j :: |Take(s, k)| <= j < |s| && s[j] == y
    {
      assert y in rest;
      var m :| 0 <= m < |rest| && rest[m] == y;
      assert s[|Take(s, k)| + m] == y;
    }
  }

  /** What the filter / sort / slice steps keep: only shown elements of the input, in
      ascending priority, exactly min(4, shown) of them; all of them when there are at most
      four, and otherwise none left out has a lower priority than one kept; and within each
      priority, the first ones in the order the filter left them. */
  lemma PipelineSpec(annotated: seq<Annotated>)
    ensures var r := Pipeline(annotated);
      var shown := FilterShown(annotated);
      SortedByPriority(r) &&
      (forall x :: x in r ==> Shown(x) && x in annotated) &&
      |r| == (if |shown| < 4 then |shown| else 4) &&
      multiset(r) <= multiset(shown) &&
      (|shown| <= 4 ==> multiset(r) == multiset(shown)) &&
      (forall x, y :: x in r && y in multiset(shown) - multiset(r) ==> x.config.priority <= y.config.priority) &&
      (forall p :: WithPriority(r, p) <= WithPriority(shown, p))
  {
    var sorted := SortByPriority(FilterShown(annotated));
    SortSorted(FilterShown(annotated));
    assert |sorted| == |multiset(sorted)| == |FilterShown(annotated)|;
    forall p
      ensures WithPriority(Pipeline(annotated), p) <= WithPriority(FilterShown(annotated), p)
    {
      SortStable(FilterShown(annotated), p);
      if |sorted| > 4 {
        WithPriorityPrefix(sorted, 4, p);
      }
    }
    SortedPrefixFirst(sorted, 4);
    TakeSplit(sorted, 4);
    PipelineMembers(annotated);
  }

  /** The prefix `Take` keeps and the rest make up the whole list. */
  lemma TakeSplit(s: seq<Annotated>, k: nat)
    ensures multiset(s) == multiset(Take(s, k)) + multiset(s[|Take(s, k)|..])
    ensures |s| <= k ==> Take(s, k) == s
  {
    assert s == Take(s, k) + s[|Take(s, k)|..];
  }

  /** Everything the pipeline keeps is a shown element of its input. */
  lemma PipelineMembers(annotated: seq<Annotated>)
    ensures forall x :: x in Pipeline(annotated) ==> Shown(x) && x in annotated
  {
    var sorted := SortByPriority(FilterShown(annotated));
    forall x | x in Pipeline(annotated)
      ensures Shown(x) && x in annotated
    {
      assert x in sorted;
      assert x in multiset(sorted);
      assert x in FilterShown(annotated);
    }
  }

  /** The card shows only enabled, unsilenced notifications of its configuration, in
      ascending priority, four of them or all when fewer are shown, and leaves none out in
      favour of one of higher priority number; notifications of equal priority appear as a
      prefix of their configured order. */
  lemma ActiveNotificationsSpec(ns: seq<NotificationConfig>, hass: Option<Hass>, templateResults: map<nat, bool>)
    ensures var r := ActiveNotifications(Some(ns), hass, templateResults);
      var shown := FilterShown(AnnotateAll(ns, hass, templateResults));
      SortedByPriority(r) &&
      (forall x :: x in r ==> Shown(x) && exists i :: 0 <= i < |ns| && x == Annotate(ns[i], i, hass, templateResults)) &&
      |r| == (if |shown| < 4 then |shown| else 4) &&
      (|shown| <= 4 ==> multiset(r) == multiset(shown)) &&
      (forall x, y :: x in r && y in multiset(shown) - multiset(r) ==> x.config.priority <= y.config.priority) &&
      (forall p :: WithPriority(r, p) <= WithPriority(shown, p))
  {
    var annotated := AnnotateAll(ns, hass, templateResults);
    assert ActiveNotifications(Some(ns), hass, templateResults) == Pipeline(annotated);
    PipelineSpec(annotated);
    forall x | x in Pipeline(annotated)
      ensures exists i :: 0 <= i < |ns| && x == Annotate(ns[i], i, hass, templateResults)
    {
      var i :| 0 <= i < |annotated| && annotated[i] == x;
      assert x == Annotate(ns[i], i, hass, templateResults);
    }
  }

  // ---------------------------------------------------------------------------
  // icons, colours and clicks

  /** `getNotificationIcon(type)` */
  function NotificationIcon(kind: string): (icon: string)
    ensures kind == "garbage" ==> icon == "mdi:trash-can"
    ensures kind == "battery_low" ==> icon == "mdi:battery-alert"
    ensures kind != "garbage" && kind != "battery_low" ==> icon == "mdi:bell"
  {
    match kind
    case "garbage" => "mdi:trash-can"
    case "battery_low" => "mdi:battery-alert"
    case _ => "mdi:bell"
  }

  /** `getSeverityBackgroundColor(severity)`, with the theme's active button colour as a
      parameter. */
  function SeverityBackgroundColor(severity: Option<string>, activeButtonColor: string): (c: string)
    ensures severity == Some("critical") ==> c == "#ef44449e"
    ensures severity == Some("warning") ==> c == "#f59e0ba3"
    ensures severity != Some("critical") && severity != Some("warning") ==> c == activeButtonColor
  {
    match Coalesce(severity, "info")
    case "critical" => "#ef44449e"
    case "warning" => "#f59e0ba3"
    case _ => activeButtonColor
  }

  /** `handleNotificationClick`: nothing without hass; turning on the `silence_entity` when
      one is set; otherwise the notification's tap action, if any, with its `enabled_entity`. */
  function NotificationClick(n: NotificationConfig, hass: Option<Hass>): (r: Option<Command>)
    ensures hass.None? ==> r.None?
    ensures hass.Some? && Truthy(n.silenceEntity) ==>
      r == Some(CallService(ServiceCall("input_boolean", Some("turn_on"), EntityData(n.silenceEntity.value))))
    ensures hass.Some? && !Truthy(n.silenceEntity) && n.tapAction.None? ==> r.None?
    ensures hass.Some? && !Truthy(n.silenceEntity) && n.tapAction.Some? ==> r == HandleTapAction(n.tapAction, hass, n.enabledEntity)
  {
    if hass.None? then None
    else if Truthy(n.silenceEntity) then
      Some(CallService(ServiceCall("input_boolean", Some("turn_on"), EntityData(n.silenceEntity.value))))
    else if n.tapAction.Some? then HandleTapAction(n.tapAction, hass, n.enabledEntity)
    else None
  }

  /** A click on a notification with a silence entity asks the host to turn that entity on;
      once it reads "on", the notification is no longer among the card's active ones. */
  lemma SilencedAfterClick(ns: seq<NotificationConfig>, i: nat, hass: Hass, templateResults: map<nat, bool>)
    requires i < |ns| && Truthy(ns[i].silenceEntity) && hass.states.Some?
    requires ns[i].silenceEntity.value in hass.states.value && hass.states.value[ns[i].silenceEntity.value].state == "on"
    ensures NotificationClick(ns[i], Some(hass)) ==
      Some(CallService(ServiceCall("input_boolean", Some("turn_on"), EntityData(ns[i].silenceEntity.value))))
    ensures Annotate(ns[i], i, Some(hass), templateResults) !in ActiveNotifications(Some(ns), Some(hass), templateResults)
  {
    ActiveNotificationsSpec(ns, Some(hass), templateResults);
    assert !Shown(Annotate(ns[i], i, Some(hass), templateResults));
  }

  /** The card's own click runs its tap action with its entity. */
  function CardClick(tapAction: Option<TapAction>, hass: Option<Hass>, entity: Option<string>): (r: Option<Command>)
    ensures tapAction.None? || hass.None? ==> r.None?
    ensures r.Some? && r.value.MoreInfo? ==>
      r.value.entityId == (if Truthy(tapAction.value.entity) then tapAction.value.entity else entity)
  {
    HandleTapAction(tapAction, hass, entity)
  }
}
