# ha-homepanel-components in Dafny

A verified model of the logic inside the Home Assistant dashboard cards of
ha-homepanel-components. Each card reads entity states from the host's state snapshot,
decides what to show, and reacts to clicks, holds and menu choices by calling host services.

The model replaces the host with values:

- a `Hass` snapshot holds the entity states;
- host effects are returned as data, never performed:
  - service calls are `ServiceCall(domain, service, data)`;
  - navigation, opening a URL and the more-info dialog are `Command`s.

What is modelled, module by module:

- `GraphTime`, `GraphResample`, `GraphAxes` (src/cards/GraphCard.tsx): the history graph's resampler and axes.
  - Delta smoothing is a method with a loop. The samples it keeps are identified by index, because the source compares them by object identity.
  - Interpolation onto a 20-minute grid is a method with a forward cursor sweep.
  - The 4-hourly x-axis ticks are built in a map.
  - The padded y-axis domain is a pure function.
- `RangeClassifier` (src/registry/numberRangeValueClassifier.ts): a class. Its constructor parses a `threshold:colour;...;*:colour` spec, and `Classify` is a first-match loop over the parsed ranges.
- `ActionHandler` (src/utils/actionHandler.ts): `handleTapAction` as a function returning a `Command`.
- `TemplateHelper` (src/utils/templateHelper.ts): the template test, response normalisation, the boolean mapping, and the loop that fills the results map.
- `CoverControl` (src/cards/CoverControlButtonCard.tsx): the hold-versus-tap gesture machine. It is written twice:
  - as a pure `Step` function over a `Gesture` state;
  - as a class whose event-handler methods are proved to follow `Step`.
  - Every render of the card creates fresh handlers, so a render is an event: the button gets a closure with no `holdTimer` and `isHolding` false, while timers armed earlier stay pending.
- `Notifications` (src/cards/NotificationsCard.tsx): template collection, then the enable/silence/text annotation, then the filter / stable sort / top-four pipeline. Also the icon and colour tables and the click precedence.
- `ButtonCard`: action priority, the default toggle for lights and switches, and the background colour.
- `Thermostat`: the service chosen for the +/- and auto buttons, and the controls' local state as a class.
- `ConfigSelector`: the current-option lookup, menu placement and the per-domain service for a chosen option. The menu's local state and hold timer are a `Step` function mirrored by a class.
- `IndicatorWidget`, `ValueCard`, `InfoCard`, `ScrollableText`: the override and fallback rules of the display cards. `CardCommon` holds the rules they share: unknown readings and reading colours.
- `HomeAssistant`: entity lookup (src/utils/widgetUtils.ts) and service-call data.
- `JsText`: the JavaScript string operations used by the cards (split, trim, includes, `||`, `??`).

The JavaScript global `Number` and the imported helpers `evaluateExpression` and `resolveColor` are parameters of the functions that use them:

- `toNumber: string -> Option<real>`, where `None` stands for NaN;
- `evaluate(expr, value, vars)`;
- `resolveColor(name)`.

The theme's named colours are a `map` parameter, and the card colours are a `Theme.CardColors` value.

Two points about the graph's grid, where the model follows the code:

- The comment at src/cards/GraphCard.tsx:173 calls the first grid time the first clean 20-minute mark "at or after the first data point". The code on lines 174-184 rounds the minute up but also zeroes seconds and milliseconds, so the first grid time can precede the first sample by up to a minute. `GraphTime.FirstGridTimeBeforeSample` exhibits such a case.
- The grid spacing is the constant `intervalMs` of src/cards/GraphCard.tsx:187, 20 minutes; it is not configurable.

## Model

| member | source | states |
|---|---|---|
| HomeAssistant.LookupEntityInState | src/utils/widgetUtils.ts:3-8 | Undefined without hass, for a missing or empty id, or without a `states` table. Otherwise exactly the table entry, undefined when the key is absent. |
| HomeAssistant.DomainOf | src/utils/actionHandler.ts:40 | The first `.`-separated piece of `d.rest` is `d` when `d` has no dot. |
| JsText.Split | src/registry/numberRangeValueClassifier.ts:13 | `split` yields at least one piece and no piece contains the separator. |
| JsText.SplitJoin | src/registry/numberRangeValueClassifier.ts:13 | Splitting the join of dot-free pieces gives those pieces back. |
| JsText.Head | src/utils/actionHandler.ts:40 | `split(sep)[0]` is a prefix of the string that has no separator, and is followed by the separator or by the end of the string. |
| JsText.Trim | src/registry/numberRangeValueClassifier.ts:14 | `trim` removes exactly the leading and trailing whitespace. |
| JsText.IncludesAt | src/utils/templateHelper.ts:7 | `includes` holds iff the pattern occurs at some position. |
| JsText.OrElse | src/cards/NotificationsCard.tsx:133 | `a \|\| b` is `a` when `a` is a non-empty string, else `b`. |
| ActionHandler.MergeServiceData | src/utils/actionHandler.ts:41-46 | Target keys override same-named `service_data` keys. Every other `service_data` key is kept, and no key comes from anywhere else. |
| ActionHandler.SplitService | src/utils/actionHandler.ts:40 | The domain is the first `.`-separated piece of `service`. A service name is present iff `service` has a `.`, and it is the piece after the first `.`, up to the next one. |
| ActionHandler.HandleTapAction | src/utils/actionHandler.ts:17-60 | No effect without an action or hass. Navigate or open a URL only for a non-empty path, the URL in `_blank`. Call a service only for a non-empty `service`: the domain is its first `.`-piece, the service name its second, with the merged data. More-info uses the action's entity, falling back to the argument. Any other action string does nothing. |
| ActionHandler.CallServiceAction | src/utils/actionHandler.ts:38-48 | An action with service `d.s`, both dot-free, calls exactly domain `d`, service `s` with the merged data. |
| ActionHandler.ServiceWithoutDot | src/utils/actionHandler.ts:40 | A service without a dot calls its whole string as domain, with an undefined service. |
| TemplateHelper.IsTemplateIff | src/utils/templateHelper.ts:6-8 | A value is a template iff it is a string containing `{{` or `{%`. |
| TemplateHelper.EvaluateTemplate | src/utils/templateHelper.ts:13-37 | A null or undefined REST reply becomes "null", and any other reply its string form. After a REST failure, a falsy WebSocket reply becomes "null" and a truthy one its string form. The call fails only when both fail. |
| TemplateHelper.AsBoolean | src/utils/templateHelper.ts:42-51 | Exactly "True" and "true" map to true. |
| TemplateHelper.TemplateBool | src/utils/templateHelper.ts:61-70 | A failed evaluation maps to false; a reply maps to true iff it is "True" or "true". |
| TemplateHelper.EvaluateTemplates | src/utils/templateHelper.ts:57-75 | The results have a key for every requested index and no other. An index requested once maps to the boolean of its own template's evaluation. |
| RangeClassifier.ParseRange | src/registry/numberRangeValueClassifier.ts:13-20 | The trimmed threshold `*` is a wildcard; any other threshold is its parsed number. The colour is present iff the part has a `:`; it is the trimmed piece after the first `:`, up to the next one. |
| RangeClassifier.CountZero | src/registry/numberRangeValueClassifier.ts:13 | A string has no separators iff their count is zero. |
| RangeClassifier.ParseRangeOf | src/registry/numberRangeValueClassifier.ts:14-19 | `value:colour` parses to the trimmed threshold and trimmed colour. |
| RangeClassifier.ParseSpec | src/registry/numberRangeValueClassifier.ts:12-21 | One range per `;`-separated part (count of `;` plus one), each the parse of its own part, in order. |
| RangeClassifier.ParseSpecOf | src/registry/numberRangeValueClassifier.ts:13 | A spec joined from `;`-free parts parses into exactly those parts' ranges. |
| RangeClassifier.FirstMatch | src/registry/numberRangeValueClassifier.ts:29-33 | Finds the first range that is a wildcard or has a threshold strictly above the value; no earlier range matches. |
| RangeClassifier.ResolveColor | src/registry/numberRangeValueClassifier.ts:31 | A colour naming a key of the named colours yields that entry; any other colour is returned as is. A missing colour is looked up under the key "undefined" and stays missing when that key is absent. |
| RangeClassifier.NumberRangeValueClassifier.constructor | src/registry/numberRangeValueClassifier.ts:12-21 | `ranges` is the parse of the spec. |
| RangeClassifier.NumberRangeValueClassifier.Classify | src/registry/numberRangeValueClassifier.ts:23-35 | "" for an undefined or non-numeric value and when no range matches. Otherwise the resolved colour of the first matching range. `ranges` is left unchanged. |
| RangeClassifier.EqualValueFallsThrough | src/registry/numberRangeValueClassifier.ts:30 | A value equal to a threshold falls through to the next range. |
| GraphTime.HourDecomposition | src/cards/GraphCard.tsx:174-175 | The offset within the hour is the minute times 60000 plus the offset within the minute. |
| GraphTime.FirstGridTime | src/cards/GraphCard.tsx:173-184 | The first grid time is a 20-minute boundary in [truncated first timestamp, +20 min). Past minute 40 it is the start of the next hour. |
| GraphTime.GridTimeMinute | src/cards/GraphCard.tsx:176-183 | A grid time has zero seconds and milliseconds and a minute in {0, 20, 40}. |
| GraphTime.FirstGridTimeByWindow | src/cards/GraphCard.tsx:174-184 | The first grid time is the start of the sample's 20-minute window when the sample is in the window's first minute, else the next window's start. |
| GraphTime.FirstGridTimeBeforeSample | src/cards/GraphCard.tsx:181-183 | A first sample 30 s past midnight gets the grid time midnight, before the sample. |
| GraphResample.Pick | src/cards/GraphCard.tsx:146-161 | The kept samples are the input at the kept indices, in order. |
| GraphResample.PickAppend | src/cards/GraphCard.tsx:154 | Keeping one more index appends that sample. |
| GraphResample.IncreasingIndicesBound | src/cards/GraphCard.tsx:146-161 | Strictly increasing indices below n number at most n. |
| GraphResample.KeepStep | src/cards/GraphCard.tsx:153-154 | Keeping a sample at least delta away from the last kept one preserves the smoothing invariant. |
| GraphResample.SkipStep | src/cards/GraphCard.tsx:153 | Skipping a sample closer than delta to the last kept one preserves the smoothing invariant. |
| GraphResample.FinishSmoothing | src/cards/GraphCard.tsx:159-161 | The last sample is appended exactly when the loop did not keep it. The result satisfies the full smoothing specification. |
| GraphResample.Smooth | src/cards/GraphCard.tsx:144-164 | Unchanged unless delta is defined and positive and the input is non-empty. When it runs: an order-preserving subsequence by strictly increasing indices that starts with the first sample. Each kept inner sample is at least delta from the previous kept one, each skipped sample is closer than delta to the last kept one, and it ends with the last sample exactly once, with length at most the input's. |
| GraphResample.SmoothLoop | src/cards/GraphCard.tsx:146-157 | After the loop, the kept samples are exactly the input at the kept indices: the first sample, then every sample at least delta from the previously kept one. Every sample after the last kept one is closer than delta to it. |
| GraphResample.LerpEndpoints | src/cards/GraphCard.tsx:204-211 | The interpolation formula gives the bracketing values at the bracketing times. |
| GraphResample.LerpBetween | src/cards/GraphCard.tsx:207-210 | Between the bracketing times, the interpolated value lies between the bracketing values. |
| GraphResample.BracketedValueBetween | src/cards/GraphCard.tsx:195-211 | For sorted input, a grid time after the first sample lies between the cursor's samples, and its value between theirs. |
| GraphResample.Interpolate | src/cards/GraphCard.tsx:167-224 | Grid times are the first grid time plus k·20 min, all at most the last timestamp; the next one would pass it. The cursor stays at most n−2 and never decreases. It stops at the first sample whose successor reaches the grid time. Each value is the linear interpolation between the cursor's two samples. |
| GraphResample.NoGridPointInsideWindow | src/cards/GraphCard.tsx:173-193 | Two samples inside one 20-minute window, past its first minute, produce no grid point. |
| GraphResample.ChartData | src/cards/GraphCard.tsx:141-235 | Fewer than two samples are passed through. Otherwise the output is the 20-minute grid from the first sample's grid time up to the last timestamp. The smoothed series is the history when smoothing is off, else the samples smoothing keeps. Each point's value interpolates, at its grid time, between the two smoothed samples that bracket it. |
| GraphAxes.ChosenKeep | src/cards/GraphCard.tsx:261-262 | The kept point of an hour stays kept unless a strictly smaller minute of that hour arrives. |
| GraphAxes.ChosenReplace | src/cards/GraphCard.tsx:262-264 | A strictly smaller minute of the hour replaces the kept point. |
| GraphAxes.ChosenFirst | src/cards/GraphCard.tsx:261-264 | The first qualifying point of an hour is kept. |
| GraphAxes.BuildTicksMap | src/cards/GraphCard.tsx:249-268 | Each hour maps to its qualifying point (hour divisible by 4, minute < 10) with the smallest minute, the first one on a tie. Every qualifying hour is present. |
| GraphAxes.SortedLabels | src/cards/GraphCard.tsx:270 | The labels of the kept points, one per hour, in ascending order, covering every kept hour. |
| GraphAxes.XAxisTicks | src/cards/GraphCard.tsx:238-273 | Undefined iff no point qualifies (in particular for no data). Otherwise one label per qualifying hour, each the smallest-minute first-seen point of that hour, in ascending order. |
| GraphAxes.MinOf | src/cards/GraphCard.tsx:286 | `Math.min` is a member of the list and no larger than any element. |
| GraphAxes.MaxOf | src/cards/GraphCard.tsx:287 | `Math.max` is a member of the list and no smaller than any element. |
| GraphAxes.Floor | src/cards/GraphCard.tsx:292 | `Math.floor` is the integer at or just below its argument. |
| GraphAxes.Ceil | src/cards/GraphCard.tsx:293 | `Math.ceil` is the integer at or just above its argument. |
| GraphAxes.YAxisDomain | src/cards/GraphCard.tsx:276-295 | Both bounds configured: returned as is. Empty history: [0, 100]. Otherwise, floor and ceiling of the bound (configured or history extreme) padded by a tenth of their distance. |
| GraphAxes.YAxisDomainCovers | src/cards/GraphCard.tsx:285-294 | When the lower bound does not exceed the upper, the domain contains both. Without configured bounds it contains every history value. |
| CoverControl.HoldActionFor | src/cards/CoverControlButtonCard.tsx:45-56 | The hold action is `holdAction`; else, with an entity, `tapAction` or the default service on the entity; with no entity, none. |
| CoverControl.TapActionFor | src/cards/CoverControlButtonCard.tsx:70-80 | The tap action is `tapAction`; else, with an entity, the default service on the entity; with no entity, none. |
| CoverControl.DefaultCommand | src/cards/CoverControlButtonCard.tsx:95-111 | With no actions configured, both tap and hold call `cover.close_cover`, `cover.stop_cover` or `cover.open_cover` on the entity. |
| CoverControl.DefaultActionCommand | src/cards/CoverControlButtonCard.tsx:49-55 | The default action `{call-service, service, target {entity_id}}` reaches the host as the button's `cover` service on the entity. |
| CoverControl.ServiceActionCommand | src/cards/CoverControlButtonCard.tsx:49-55 | A call-service action for `cover.<n>`, with `n` dot-free and the entity as target, reaches the host as service `n` of the `cover` domain with `entity_id` as data. |
| CoverControl.Step | src/cards/CoverControlButtonCard.tsx:35-90 | MouseDown resets holding and arms a new timer. An armed timer firing dispatches the hold action once, and sets holding iff the current closure armed it; a cancelled one does nothing. A render gives a fresh closure (no timer, not holding) and keeps the armed timers. MouseUp cancels the timer and dispatches the tap action iff not holding. MouseLeave cancels the timer, leaves holding alone and dispatches nothing. |
| CoverControl.RunWhileHeld | src/cards/CoverControlButtonCard.tsx:42-59 | While the button stays down, at most one hold is dispatched and none once holding. |
| CoverControl.RunWhileHeldFires | src/cards/CoverControlButtonCard.tsx:42-90 | While the button is down and nothing is held yet, a hold is dispatched iff the press's own timer is still armed and fires before the mouse leaves. |
| CoverControl.PressDispatchesOnce | src/cards/CoverControlButtonCard.tsx:38-84 | A press within one render (down, timer events and leaves, up) dispatches exactly one action. It is the hold action iff the timer armed by the mouse-down fired before any mouse-leave; otherwise it is the tap action. |
| CoverControl.RunAppend | src/cards/CoverControlButtonCard.tsx:38-90 | Running two event sequences one after the other is running their concatenation. |
| CoverControl.OrphanedTimer | src/cards/CoverControlButtonCard.tsx:38-66 | A second MouseDown overwrites `holdTimer`, so the first timer is never cleared: down, down, up, first timer dispatches a tap and then a hold. |
| CoverControl.RenderDuringHold | src/cards/CoverControlButtonCard.tsx:35-68 | Down, hold timer, render, up dispatches the hold action and then the tap action. |
| CoverControl.RenderDuringPress | src/cards/CoverControlButtonCard.tsx:35-68 | Down, render, up, timer dispatches the tap action and then the hold action. |
| CoverControl.StepAcrossRenders | src/cards/CoverControlButtonCard.tsx:29-93 | With the closure kept across renders, a render changes nothing; every other event steps as `Step`. |
| CoverControl.DropRenders | src/cards/CoverControlButtonCard.tsx:29-93 | Keeps exactly the events that are not renders. |
| CoverControl.DropRendersAppend | src/cards/CoverControlButtonCard.tsx:29-93 | Dropping renders distributes over concatenation, so the other events keep their order. |
| CoverControl.RunAcrossRendersDrops | src/cards/CoverControlButtonCard.tsx:29-93 | With the closure kept, a run equals the run of the same events without the renders. |
| CoverControl.PressAcrossRendersDispatchesOnce | src/cards/CoverControlButtonCard.tsx:38-84 | With the closure kept, a press dispatches exactly once whatever renders happen while the button is down: hold iff the press's timer fired before a leave, else tap. |
| CoverControl.ButtonHandler.constructor | src/cards/CoverControlButtonCard.tsx:30-37 | A fresh handler is idle with its actions and default service. |
| CoverControl.ButtonHandler.OnMouseDown | src/cards/CoverControlButtonCard.tsx:38-60 | Updates the fields as `Step` does for MouseDown. |
| CoverControl.ButtonHandler.OnTimerFired | src/cards/CoverControlButtonCard.tsx:42-59 | Updates the fields and dispatches as `Step` does for a timer. |
| CoverControl.ButtonHandler.OnMouseUp | src/cards/CoverControlButtonCard.tsx:62-84 | Updates the fields and dispatches as `Step` does for MouseUp. |
| CoverControl.ButtonHandler.OnMouseLeave | src/cards/CoverControlButtonCard.tsx:86-90 | Updates the fields as `Step` does for MouseLeave. |
| CoverControl.ButtonHandler.OnRender | src/cards/CoverControlButtonCard.tsx:35-36 | Updates the fields as `Step` does for a render: a fresh closure, armed timers kept. |
| CoverControl.CoverHandlers | src/cards/CoverControlButtonCard.tsx:95-111 | Three idle handlers with the down / stop / up actions and their default cover services. |
| Notifications.CollectTemplates | src/cards/NotificationsCard.tsx:59-67 | One request per notification whose `enabled` is a template, carrying its index and template, in increasing index order. Every such notification is requested. |
| Notifications.EvaluateAllTemplates | src/cards/NotificationsCard.tsx:57-74 | No results iff no notification has a template. Otherwise every template notification's index maps to its evaluated boolean, and nothing else is present. |
| Notifications.DisplayText | src/cards/NotificationsCard.tsx:133-137 | The text entity's state when it is non-empty, else the static text, else "". |
| Notifications.IsEnabled | src/cards/NotificationsCard.tsx:112-124 | With neither `enabled_entity` nor `enabled`, a notification is disabled. It is enabled through the entity only when hass is present. |
| Notifications.EnabledPrecedence | src/cards/NotificationsCard.tsx:112-124 | A set `enabled_entity` alone decides. Failing that, a template `enabled` is decided by its evaluated result alone. Failing that, a static `enabled` is decided by its truthiness. |
| Notifications.IsSilenced | src/cards/NotificationsCard.tsx:127-131 | Silenced iff a silence entity is set and reads "on" or "true"; never without hass. |
| Notifications.FilterShown | src/cards/NotificationsCard.tsx:146 | Keeps exactly the enabled, unsilenced elements, drawn from the input. |
| Notifications.FilterShownSingleton | src/cards/NotificationsCard.tsx:146 | One element is kept iff it is shown. |
| Notifications.FilterShownAppend | src/cards/NotificationsCard.tsx:146 | Filtering a concatenation concatenates the filtered parts, so order and repetitions are kept. |
| Notifications.WithPriorityPrefix | src/cards/NotificationsCard.tsx:148 | Slicing to a prefix keeps, for each priority, a prefix of that priority's elements. |
| Notifications.Insert | src/cards/NotificationsCard.tsx:147 | Insertion adds exactly one element. |
| Notifications.InsertSorted | src/cards/NotificationsCard.tsx:147 | Insertion keeps a list sorted by priority. |
| Notifications.SortByPriority | src/cards/NotificationsCard.tsx:147 | Sorting is a permutation. |
| Notifications.SortSorted | src/cards/NotificationsCard.tsx:147 | Sorting yields ascending priority. |
| Notifications.InsertStable | src/cards/NotificationsCard.tsx:147 | Insertion places the element after the existing ones of equal priority. |
| Notifications.SortStable | src/cards/NotificationsCard.tsx:147 | Sorting keeps the original order among equal priorities, as `Array.prototype.sort` does. |
| Notifications.Take | src/cards/NotificationsCard.tsx:148 | `slice(0, k)` is the prefix of length min(k, n). |
| Notifications.AnnotateAll | src/cards/NotificationsCard.tsx:109-145 | Each notification is annotated with its own original index. |
| Notifications.ActiveNotifications | src/cards/NotificationsCard.tsx:109-148 | At most four notifications are shown. |
| Notifications.SortedPrefixFirst | src/cards/NotificationsCard.tsx:147-148 | A prefix of a sorted list is sorted, and none of it has a larger priority than anything cut off. |
| Notifications.PipelineSpec | src/cards/NotificationsCard.tsx:146-148 | The output is only shown input elements, in ascending priority, exactly min(4, shown) of them. It holds all of them when there are at most four, and never leaves one out for a higher priority number. Within each priority it keeps a prefix of the filtered order. |
| Notifications.ActiveNotificationsSpec | src/cards/NotificationsCard.tsx:109-148 | The shown list is enabled, unsilenced annotations of configured notifications, sorted, top four by priority: four, or all shown when fewer. Within each priority it keeps a prefix of the notifications' order. |
| Notifications.NotificationIcon | src/cards/NotificationsCard.tsx:84-93 | garbage → trash-can, battery_low → battery-alert, anything else → bell. |
| Notifications.SeverityBackgroundColor | src/cards/NotificationsCard.tsx:96-106 | critical and warning get their fixed colours; info, a missing severity or anything else gets the theme's active colour. |
| Notifications.NotificationClick | src/cards/NotificationsCard.tsx:196-211 | Nothing without hass. With a silence entity, only `input_boolean.turn_on` on it. Otherwise the notification's tap action, with the enabled entity. |
| Notifications.SilencedAfterClick | src/cards/NotificationsCard.tsx:127-209 | A click on a notification with a silence entity asks for `input_boolean.turn_on` on it. Once that entity reads "on", the notification is not among the active ones. |
| Notifications.CardClick | src/cards/NotificationsCard.tsx:47-49 | Nothing without a tap action or hass. A more-info action names its own entity, else the card's `entity`. |
| ButtonCard.DefaultToggle | src/cards/ButtonCard.tsx:50-61 | Only light and switch entities get the default `<domain>.toggle` with `service_data {entity_id}`. |
| ButtonCard.IsOn | src/cards/ButtonCard.tsx:30-32 | On iff the state is "on", "open", "active" or "unlocked"; a missing entity is off. |
| ButtonCard.HandleClick | src/cards/ButtonCard.tsx:34-64 | Nothing without hass. When on, a set `tap_action_active` runs; when off, a set `tap_action_inactive`. Without the state-specific action, a set `tap_action` runs. |
| ButtonCard.SelectAction | src/cards/ButtonCard.tsx:42-62 | When on, `tap_action_active` comes first; when off, `tap_action_inactive`. Then `tap_action`, then, with an entity and hass, the default toggle. None when none applies. |
| ButtonCard.DefaultToggleCommand | src/cards/ButtonCard.tsx:48-64 | Without configured actions a light or switch is toggled through its own domain. |
| ButtonCard.ToggleCommand | src/cards/ButtonCard.tsx:50-61 | The default toggle action of a `d.` entity reaches the host as service `toggle` in domain `d`, with `entity_id` as data. |
| ButtonCard.OtherDomainNoCommand | src/cards/ButtonCard.tsx:53-64 | Without configured actions other domains dispatch nothing. |
| ButtonCard.IsLight | src/cards/ButtonCard.tsx:68 | `isLight` comes from the configuration when set, else from the entity id's `light.` prefix. |
| ButtonCard.LightDomainIsLight | src/cards/ButtonCard.tsx:68 | A `light.` entity counts as a light unless configured otherwise. |
| ButtonCard.BackgroundColor | src/cards/ButtonCard.tsx:71-73 | On and light → active light; on and not light → active; off → inactive. |
| Thermostat.TargetTemperature | src/cards/ThermostatButtonCard.tsx:31-32 | The parsed state of the entity; NaN when there is no state. |
| Thermostat.IsAutoOn | src/cards/ThermostatButtonCard.tsx:42-46 | Auto is on iff an auto entity is configured and its state is exactly "on"; never without hass. |
| Thermostat.JsonNumber | src/cards/ThermostatButtonCard.tsx:70-79 | The number sent to the host; NaN goes out as `null`. |
| Thermostat.AdjustCall | src/cards/ThermostatButtonCard.tsx:57-81 | No call without entity or hass. `input_number` entities get `input_number.set_value` with `value`; every other entity gets `climate.set_temperature` with `temperature`. Both carry target + delta and the entity id. |
| Thermostat.ClimateStep | src/cards/ThermostatButtonCard.tsx:57-80 | Plus asks a climate entity for target + 0.5, minus for target − 0.5. |
| Thermostat.PlusMinusOneDegree | src/cards/ThermostatButtonCard.tsx:57-80 | From one host state the plus and minus requests go to the same service and differ by exactly one degree. |
| Thermostat.AutoToggleCall | src/cards/ThermostatButtonCard.tsx:83-98 | `<domain>.toggle` only for `input_boolean` and `switch` auto entities; nothing for other domains, no auto entity or no hass. |
| Thermostat.ButtonBackground | src/cards/ThermostatButtonCard.tsx:100-105 | Exactly the pressed button gets the active colour. |
| Thermostat.AutoIconColor | src/cards/ThermostatButtonCard.tsx:43-46 | The auto icon is orange iff the auto entity's state is exactly "on". |
| Thermostat.ThermostatControls.constructor | src/cards/ThermostatButtonCard.tsx:26-27 | Controls start hidden, no button pressed. |
| Thermostat.ThermostatControls.HandleClick | src/cards/ThermostatButtonCard.tsx:51-55 | The card shows as pressed and the controls toggle. |
| Thermostat.ThermostatControls.PressTimerElapsed | src/cards/ThermostatButtonCard.tsx:51-61 | The pressed marker clears; the controls stay. |
| Thermostat.ThermostatControls.CloseOverlay | src/cards/ThermostatButtonCard.tsx:125 | A click on the overlay hides the controls. |
| Thermostat.ThermostatControls.Adjust | src/cards/ThermostatButtonCard.tsx:57-61 | Without entity or hass nothing changes. Otherwise the button shows as pressed and the request is `AdjustCall` with its delta. |
| ConfigSelector.FindOption | src/cards/ConfigSelectorCard.tsx:44 | `find` returns the first option with the id, and none iff no option has it. |
| ConfigSelector.CurrentOption | src/cards/ConfigSelectorCard.tsx:40-44 | The current option is a configured option whose id is the entity's state, or "" without one. |
| ConfigSelector.SelectedBecomesCurrent | src/cards/ConfigSelectorCard.tsx:40-44 | With distinct ids, once the entity takes the chosen option's id as its state, that option is current. |
| ConfigSelector.Title | src/cards/ConfigSelectorCard.tsx:196 | The current option's title, "--" without one. |
| ConfigSelector.IconName | src/cards/ConfigSelectorCard.tsx:181-183 | The current option's icon when truthy; otherwise exactly the card's icon when truthy, else none. |
| ConfigSelector.OptionColor | src/cards/ConfigSelectorCard.tsx:186 | The resolved colour of an option, "#c0c0c0" without one. |
| ConfigSelector.MenuPositionFor | src/cards/ConfigSelectorCard.tsx:84-86 | The menu opens above iff it does not fit below and there is no more room below than above. It opens below iff it fits below or there is more room below than above. |
| ConfigSelector.PositionFits | src/cards/ConfigSelectorCard.tsx:84-86 | When the menu fits on some side it opens on a side where it fits. Unless it fits below, it opens on the side with at least as much room. |
| ConfigSelector.OptionCall | src/cards/ConfigSelectorCard.tsx:120-138 | `input_select` and `select` get `<domain>.select_option` with `option`; `input_text` gets `input_text.set_value` with `value`; any other domain gets no call. |
| ConfigSelector.OpenMenu | src/cards/ConfigSelectorCard.tsx:76-89 | The menu is shown. The position is recomputed only when the button is mounted and options exist; nothing else changes. |
| ConfigSelector.Step | src/cards/ConfigSelectorCard.tsx:47-140 | A click closes an open menu and opens a closed one. Pressing arms a new hold timer and releasing cancels the last one. An armed timer opens the menu; a cancelled one does nothing. Dismissal closes the menu. Choosing an option does nothing without entity or hass; otherwise it closes the menu, marks the option pressed and makes the option's call. |
| ConfigSelector.RunCons | src/cards/ConfigSelectorCard.tsx:65-102 | Running events is stepping through them one at a time. |
| ConfigSelector.QuickClickOpens | src/cards/ConfigSelectorCard.tsx:65-102 | Press, release, click on a closed menu opens it and leaves no hold timer pending. |
| ConfigSelector.HoldThenReleaseCloses | src/cards/ConfigSelectorCard.tsx:65-102 | A hold opens the menu when the timer fires; the click that ends the press then closes it again. |
| ConfigSelector.ChooseInputSelect | src/cards/ConfigSelectorCard.tsx:117-127 | Choosing an option of an `input_select` closes the menu and selects exactly that option. |
| ConfigSelector.OptionBackground | src/cards/ConfigSelectorCard.tsx:244 | Only the pressed option is highlighted. |
| ConfigSelector.ConfigSelectorMenu.constructor | src/cards/ConfigSelectorCard.tsx:32-35 | The menu starts closed, below, nothing pressed, no timers. |
| ConfigSelector.ConfigSelectorMenu.Open | src/cards/ConfigSelectorCard.tsx:76-89 | Updates the fields as `OpenMenu` says. |
| ConfigSelector.ConfigSelectorMenu.OnClick | src/cards/ConfigSelectorCard.tsx:65-74 | Updates the fields as `Step` does for a click. |
| ConfigSelector.ConfigSelectorMenu.OnPressStart | src/cards/ConfigSelectorCard.tsx:91-95 | Updates the fields as `Step` does for a press. |
| ConfigSelector.ConfigSelectorMenu.OnPressEnd | src/cards/ConfigSelectorCard.tsx:97-102 | Updates the fields as `Step` does for a release. |
| ConfigSelector.ConfigSelectorMenu.OnHoldTimer | src/cards/ConfigSelectorCard.tsx:92-94 | Updates the fields as `Step` does for a hold timer. |
| ConfigSelector.ConfigSelectorMenu.OnDismiss | src/cards/ConfigSelectorCard.tsx:47-63 | Updates the fields as `Step` does for a dismissal. |
| ConfigSelector.ConfigSelectorMenu.OnOptionClick | src/cards/ConfigSelectorCard.tsx:109-140 | Updates the fields and returns the call as `Step` does for an option click. |
| ConfigSelector.ConfigSelectorMenu.OnPressedTimer | src/cards/ConfigSelectorCard.tsx:115 | Updates the fields as `Step` does when the pressed marker expires. |
| CardCommon.StyleOf | src/cards/ValueCard.tsx:103-105 | Unknown readings are grey for icon and text, whatever icon colour is configured. Known readings have white text and the configured icon colour, white by default. |
| CardCommon.FriendlyNameOf | src/cards/IndicatorWidgetCard.tsx:38 | The friendly name is present iff the entity exists and has one. |
| IndicatorWidget.Title | src/cards/IndicatorWidgetCard.tsx:37-48 | A title expression decides, its nullish result becoming "". Otherwise the configured title, else the friendly name, else "". |
| IndicatorWidget.BgColorName | src/cards/IndicatorWidgetCard.tsx:50-59 | A colour expression decides, its nullish result becoming "". Otherwise a truthy `bgColor`, else "Undefined". |
| IndicatorWidget.Value | src/cards/IndicatorWidgetCard.tsx:61-65 | A value expression decides, its nullish result becoming "". Otherwise the raw state, or "". |
| IndicatorWidget.Corner | src/cards/IndicatorWidgetCard.tsx:32-35 | A corner shows its entity's state, unchanged, iff that state is non-empty. |
| IndicatorWidget.Indicator | src/cards/IndicatorWidgetCard.tsx:71-81 | The view receives the title, the resolved background colour, the value and the four corners. |
| IndicatorWidget.ShownValue | src/cards/IndicatorWidgetCard.tsx:101 | The view shows the value, "N/A" when it is undefined. |
| IndicatorWidget.NotAvailableUnreachable | src/cards/IndicatorWidgetCard.tsx:61-101 | The "N/A" fallback never applies: without an expression the view shows the raw state or "". |
| IndicatorWidget.NoExpressionsNoEvaluation | src/cards/IndicatorWidgetCard.tsx:40-65 | Without expressions the card does not depend on the evaluator. |
| ValueCard.Entries | src/cards/ValueCard.tsx:44-61 | A non-empty `values` list is used as is. Else one reading from the top-level fields when `entity` and `title` are both set. Else none. |
| ValueCard.ViewOf | src/cards/ValueCard.tsx:81-127 | An unknown reading shows "--", greyed and without unit. A known one shows the expression's result (the raw state when nullish) or the raw state, with its unit when set. |
| ValueCard.Views | src/cards/ValueCard.tsx:80-129 | One view per reading, in order. |
| ValueCard.UnknownSkipsExpression | src/cards/ValueCard.tsx:86-88 | An unknown reading never consults the display expression. |
| ValueCard.MoreInfoIgnoresListedEntities | src/cards/ValueCard.tsx:40-42 | A click's more-info fallback uses the top-level entity, never one of the listed readings. |
| ValueCard.Click | src/cards/ValueCard.tsx:40-42 | Nothing without a tap action or hass. A more-info action names its own entity, else the top-level `entity`. |
| InfoCard.DirectStateAgrees | src/cards/InfoCard.tsx:39 | The title-bar icons' direct lookup agrees with the lookup primitive for non-empty ids. |
| InfoCard.TitleBarIconColor | src/cards/InfoCard.tsx:39-42 | The active colour only when the entity is exactly "on" and one is configured; otherwise "#ccc". |
| InfoCard.Status | src/cards/InfoCard.tsx:64 | The status entity's state, or "" when there is none. |
| InfoCard.Click | src/cards/InfoCard.tsx:66-68 | Nothing without a tap action or hass. A more-info action names its own entity, else the card's `entity`. |
| InfoCard.RowViewOf | src/cards/InfoCard.tsx:123-144 | An unknown row shows "--", greyed, without unit. A known row shows its state, with its unit when set. |
| InfoCard.Columns | src/cards/InfoCard.tsx:118-148 | One column per configured column, with its rows in order; none without columns. |
| InfoCard.RowMatchesValueCard | src/cards/InfoCard.tsx:124-142 | An info row and a value reading of the same entity, without an expression, show the same text, unit and colours. |
| ScrollableText.TextContent | src/cards/ScrollableTextCard.tsx:33-48 | With entity, attribute and a known entity: the attribute's value, "none" when it is falsy. Else a non-empty state. Else the static text, or "". |
| ScrollableText.StaticTextOnlyAsFallback | src/cards/ScrollableTextCard.tsx:37-48 | A known entity with an attribute or a non-empty state makes the static text irrelevant. |
| ScrollableText.CardHeight | src/cards/ScrollableTextCard.tsx:50 | The configured height when non-zero, else 200. |
| ScrollableText.Click | src/cards/ScrollableTextCard.tsx:29-31 | Nothing without a tap action or hass. A more-info action names its own entity, else the card's `entity`. |
## Findings

| source | as written | input that shows it | evidently intended | confidence | as-written member | corrected member |
|---|---|---|---|---|---|---|
| src/cards/CoverControlButtonCard.tsx:29-111 | `createButtonHandler` runs in the component body, so each render (every `hass` update) gives the buttons fresh `holdTimer` and `isHolding` while earlier timers stay pending | down, hold timer fires, render, up; or down, render, up, timer fires | one press dispatches exactly one action, hold or tap | medium, not executed | CoverControl.RenderDuringHold | CoverControl.PressAcrossRendersDispatchesOnce |

## Left out

- I/O and React plumbing:
  - the history fetch, JSON parsing and periodic refresh of the graph;
  - the 5-second template re-evaluation interval;
  - rendering, styles and keyframes;
  - `console.log`.
- Local time and locale: minutes and hours are taken in UTC. Time labels are (hour, minute) pairs, not `toLocaleTimeString` strings, and the `toFixed(1)` state string of interpolated points is dropped.
- Floating point: values are `real`, so IEEE rounding in interpolation and padding is not modelled. NaN appears only as `None` from `toNumber`, and the resampler takes a NaN-free series.
- Timer durations: the 500 ms hold and the 150 ms press-highlight delays are events, not clocks. The 150 ms delay before an option click closes the menu and calls the service is collapsed into the click.
- Template transport: `callApi`, `callWS` and `Promise.all` are replaced by the outcomes of the two calls, or by an evaluator applied to the requests in order.
- `evaluateExpression`, `resolveColor`, `Number` and the theme's contents are not part of this model; they are parameters.
- GraphResample.Interpolate: the fallback `processedData[dataIndex + 1] || processedData[dataIndex]` is not modelled, because the cursor never exceeds n−2 and the fallback cannot apply.
- GraphAxes.SortedLabels: collects the kept points by ascending hour instead of sorting the label strings. The two orders agree because labels are two-digit "HH:MM" strings.
- Notifications.EvaluateAllTemplates: the guard that skips evaluation without hass or without notifications is left to the caller, as is storing the results in React state.
- Thermostat: the current-temperature display is not modelled. It reads a numeric attribute, and attributes are display strings here.
- Thermostat.ThermostatControls.Adjust: the auto-mode button's visibility and the overlay's layering are not modelled.
- InfoCard and the display cards: `isStatic` styling, icon sizes, the title-bar visibility of the scrollable text card, and the `cursor` style are not modelled.
- ConfigSelector.ConfigSelectorMenu.OnDismiss: a mouse-down outside both the menu and the button, and a click on the overlay, are one event. Which element was hit is not modelled.
- CoverControl.Step: a timer armed by an earlier render dispatches with the `hass` of that render; dispatches here carry the action only, and the host state is applied by the caller.
- CoverControl.StepAcrossRenders: the corrected machine is the handler kept across renders; the class `ButtonHandler` follows the code as written, with `OnRender`.
- The context-menu suppression on long press has no effect on state and is not modelled.
- Theme files, the card registry, the custom-element shims and the floating-point formatting cards (rain watering, energy flow, energy usage) are not part of this model.
