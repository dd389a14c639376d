/**
 * src/cards/ConfigSelectorCard.tsx: a button showing the option whose id is the state of a
 * select-like entity, and a menu, opened by a click or by holding the button for 500 ms,
 * from which a new option is sent to the entity. The menu opens below the button unless
 * it neither fits there nor has more room there than above.
 */
module ConfigSelector {
  import opened JsText
  import opened HomeAssistant

  /** One entry of `options`; `color` and `icon` count only when truthy. */
  datatype ConfigOption = ConfigOption(id: string, title: string, color: Option<string>, icon: Option<string>)

  datatype SelectorConfig = SelectorConfig(entity: Option<string>, options: Option<seq<ConfigOption>>, icon: Option<string>)

  datatype Position = Above | Below

  /** The button's distances to the bottom and the top of the window; `None` while the
      button is not mounted. */
  datatype Geometry = Geometry(spaceBelow: real, spaceAbove: real)

  // ---------------------------------------------------------------------------
  // the current option

  /** `options.find(opt => opt.id === id)` */
  function FindOption(options: seq<ConfigOption>, id: string): (r: Option<ConfigOption>)
    ensures r.None? <==> forall k :: 0 <= k < |options| ==> options[k].id != id
    ensures r.Some? ==> exists k :: (0 <= k < |options| && options[k] == r.value && r.value.id == id &&
      forall j :: 0 <= j < k ==> options[j].id != id)
  {
    if |options| == 0 then None
    else if options[0].id == id then Some(options[0])
    else
      var r := FindOption(options[1..], id);
      assert forall k :: 1 <= k < |options| ==> options[k] == options[1..][k - 1];
      r
  }

  /** `entityState?.state ?? ""` */
  function CurrentConfigId(cfg: SelectorConfig, hass: Option<Hass>): string
  {
    Coalesce(LookupState(hass, Some(Coalesce(cfg.entity, ""))), "")
  }

  /** `configTyped?.options?.find(...)`: the option whose id is the entity's state. */
  function CurrentOption(cfg: SelectorConfig, hass: Option<Hass>): (r: Option<ConfigOption>)
    ensures cfg.options.None? ==> r.None?
    ensures r.Some? ==> r.value in cfg.options.value && r.value.id == CurrentConfigId(cfg, hass)
  {
    match cfg.options
    case None => None
    case Some(opts) => FindOption(opts, CurrentConfigId(cfg, hass))
  }

  predicate DistinctIds(options: seq<ConfigOption>)
  {
    forall i, j :: 0 <= i < j < |options| ==> options[i].id != options[j].id
  }

  /** Selecting an option and the entity taking it as its state make it the current option,
      when the option ids are distinct. */
  lemma SelectedBecomesCurrent(cfg: SelectorConfig, table: map<string, EntityState>, o: ConfigOption)
    requires Truthy(cfg.entity) && cfg.options.Some? && o in cfg.options.value
    requires DistinctIds(cfg.options.value)
    requires cfg.entity.value in table && table[cfg.entity.value].state == o.id
    ensures CurrentOption(cfg, Some(Hass(Some(table)))) == Some(o)
  {
    var opts := cfg.options.value;
    var r := CurrentOption(cfg, Some(Hass(Some(table))));
    assert r.Some? by {
      var i :| 0 <= i < |opts| && opts[i] == o;
    }
    var k :| 0 <= k < |opts| && opts[k] == r.value && r.value.id == o.id;
    var i :| 0 <= i < |opts| && opts[i] == o;
    assert opts[k].id == opts[i].id;
    assert k == i;
  }

  /** The title shown: the current option's, `"--"` without one. */
  function Title(cfg: SelectorConfig, hass: Option<Hass>): (t: string)
    ensures CurrentOption(cfg, hass).Some? ==> t == CurrentOption(cfg, hass).value.title
    ensures CurrentOption(cfg, hass).None? ==> t == "--"
  {
    match CurrentOption(cfg, hass)
    case Some(o) => o.title
    case None => "--"
  }

  /** The icon shown, `currentConfig?.icon || configTyped?.icon`; none when both are falsy. */
  function IconName(cfg: SelectorConfig, hass: Option<Hass>): (i: Option<string>)
    ensures i.Some? ==> i.value != ""
    ensures CurrentOption(cfg, hass).Some? && Truthy(CurrentOption(cfg, hass).value.icon) ==>
      i == CurrentOption(cfg, hass).value.icon
    ensures !(CurrentOption(cfg, hass).Some? && Truthy(CurrentOption(cfg, hass).value.icon)) ==>
      i == (if Truthy(cfg.icon) then cfg.icon else None)
    ensures i.None? <==> !(CurrentOption(cfg, hass).Some? && Truthy(CurrentOption(cfg, hass).value.icon)) && !Truthy(cfg.icon)
  {
    var current := CurrentOption(cfg, hass);
    if current.Some? && Truthy(current.value.icon) then current.value.icon
    else if Truthy(cfg.icon) then cfg.icon
    else None
  }

  /** The colour of an option's icon or title: its resolved colour, `"#c0c0c0"` without one.
      `resolveColor` (src/utils/widgetUtils.ts) is not part of this model and is a parameter. */
  function OptionColor(option: Option<ConfigOption>, resolveColor: string -> string): (c: string)
    ensures option.Some? && Truthy(option.value.color) ==> c == resolveColor(option.value.color.value)
    ensures !(option.Some? && Truthy(option.value.color)) ==> c == "#c0c0c0"
  {
    if option.Some? && Truthy(option.value.color) then resolveColor(option.value.color.value) else "#c0c0c0"
  }

  // ---------------------------------------------------------------------------
  // menu placement

  /** `options.length * 40 + 16` pixels. */
  function MenuHeight(n: nat): real
  {
    (n * 40 + 16) as real
  }

  /** Below when the menu fits below the button or there is more room below than above. */
  function MenuPositionFor(g: Geometry, n: nat): (p: Position)
    ensures p == Above <==> g.spaceBelow < MenuHeight(n) && g.spaceBelow <= g.spaceAbove
    ensures p == Below <==> g.spaceBelow >= MenuHeight(n) || g.spaceBelow > g.spaceAbove
  {
    if g.spaceBelow >= MenuHeight(n) || g.spaceBelow > g.spaceAbove then Below else Above
  }

  /** Whenever the menu fits on some side, it opens on a side where it fits; and unless it
      fits below, it opens on a side with at least as much room as the other. */
  lemma PositionFits(g: Geometry, n: nat)
    ensures g.spaceBelow >= MenuHeight(n) || g.spaceAbove >= MenuHeight(n) ==>
      (if MenuPositionFor(g, n) == Below then g.spaceBelow else g.spaceAbove) >= MenuHeight(n)
    ensures (if MenuPositionFor(g, n) == Below then g.spaceBelow else g.spaceAbove) >=
      (if MenuPositionFor(g, n) == Below then g.spaceAbove else g.spaceBelow) ||
      g.spaceBelow >= MenuHeight(n)
  {
  }

  // ---------------------------------------------------------------------------
  // interaction

  /** The card's local state: the menu, the option flashing as pressed, and the pending
      hold timers (`armed`, identified by increasing ids; `holdTimer` is the last one set). */
  datatype MenuState = MenuState(
    showMenu: bool,
    position: Position,
    pressedOption: Option<string>,
    holdTimer: Option<nat>,
    armed: set<nat>,
    nextTimerId: nat)

  const Initial := MenuState(false, Below, None, None, {}, 1)

  datatype MenuEvent =
    | Click(geometry: Option<Geometry>)              // a click on the button
    | PressStart                                     // mouse down or touch start on the button
    | PressEnd                                       // mouse up, mouse leave or touch end
    | HoldTimerFired(id: nat, geometry: Option<Geometry>)
    | Dismiss                                        // overlay click, or mouse down outside menu and button
    | OptionClick(option: ConfigOption)
    | PressedTimerElapsed                            // 150 ms after an option click

  /** `input_select.select_option` or `select.select_option` with `option`,
      `input_text.set_value` with `value`, nothing for any other domain. */
  function OptionCall(entityId: string, id: string): (c: Option<ServiceCall>)
    ensures c.Some? <==> Domain(entityId) in {"input_select", "select", "input_text"}
    ensures c.Some? ==> c.value.domain == Domain(entityId) && "entity_id" in c.value.data && c.value.data["entity_id"] == JStr(entityId)
    ensures c.Some? && Domain(entityId) != "input_text" ==>
      c.value.service == Some("select_option") && c.value.data == map["entity_id" := JStr(entityId), "option" := JStr(id)]
    ensures c.Some? && Domain(entityId) == "input_text" ==>
      c.value.service == Some("set_value") && c.value.data == map["entity_id" := JStr(entityId), "value" := JStr(id)]
  {
    var domain := Domain(entityId);
    if domain == "input_select" then
      Some(ServiceCall("input_select", Some("select_option"), map["entity_id" := JStr(entityId), "option" := JStr(id)]))
    else if domain == "select" then
      Some(ServiceCall("select", Some("select_option"), map["entity_id" := JStr(entityId), "option" := JStr(id)]))
    else if domain == "input_text" then
      Some(ServiceCall("input_text", Some("set_value"), map["entity_id" := JStr(entityId), "value" := JStr(id)]))
    else None
  }

  /** `openMenu`: the position is recomputed when the button is mounted and options are
      configured, and the menu is shown. */
  function OpenMenu(cfg: SelectorConfig, s: MenuState, geometry: Option<Geometry>): (r: MenuState)
    ensures r.showMenu
    ensures geometry.Some? && cfg.options.Some? ==> r.position == MenuPositionFor(geometry.value, |cfg.options.value|)
    ensures !(geometry.Some? && cfg.options.Some?) ==> r.position == s.position
    ensures r == s.(showMenu := r.showMenu, position := r.position)
  {
    var position := if geometry.Some? && cfg.options.Some? then MenuPositionFor(geometry.value, |cfg.options.value|) else s.position;
    s.(position := position, showMenu := true)
  }

  /** The card's reaction to one event: its new state and the service call it makes. The
      150 ms delay before an option click takes effect is not modelled. */
  function Step(cfg: SelectorConfig, hass: Option<Hass>, s: MenuState, e: MenuEvent): (r: (MenuState, Option<ServiceCall>))
    ensures r.1.Some? ==> e.OptionClick?
    ensures e.Click? && s.showMenu ==> r.0 == s.(showMenu := false)
    ensures e.Click? && !s.showMenu ==> r.0 == OpenMenu(cfg, s, e.geometry)
    ensures e.PressStart? ==> (r.0.holdTimer == Some(s.nextTimerId) && r.0.armed == s.armed + {s.nextTimerId} &&
      r.0.nextTimerId == s.nextTimerId + 1 && r.0.showMenu == s.showMenu)
    ensures e.PressEnd? ==> (r.0.holdTimer.None? && r.0.showMenu == s.showMenu &&
      r.0.armed == (if s.holdTimer.Some? then s.armed - {s.holdTimer.value} else s.armed))
    ensures e.HoldTimerFired? && e.id in s.armed ==> r.0 == OpenMenu(cfg, s.(armed := s.armed - {e.id}), e.geometry)
    ensures e.HoldTimerFired? && e.id !in s.armed ==> r.0 == s
    ensures e.Dismiss? ==> r.0 == s.(showMenu := false)
    ensures e.OptionClick? && (!Truthy(cfg.entity) || hass.None?) ==> r == (s, None)
    ensures e.OptionClick? && Truthy(cfg.entity) && hass.Some? ==>
      r.0 == s.(showMenu := false, pressedOption := Some(e.option.id)) && r.1 == OptionCall(cfg.entity.value, e.option.id)
    ensures e.PressedTimerElapsed? ==> r.0 == s.(pressedOption := None)
    ensures r.0.armed <= s.armed + {s.nextTimerId} && r.0.nextTimerId >= s.nextTimerId
  {
    match e
    case Click(g) => (if s.showMenu then s.(showMenu := false) else OpenMenu(cfg, s, g), None)
    case PressStart =>
      (s.(holdTimer := Some(s.nextTimerId), armed := s.armed + {s.nextTimerId}, nextTimerId := s.nextTimerId + 1), None)
    case PressEnd =>
      if s.holdTimer.Some? then (s.(armed := s.armed - {s.holdTimer.value}, holdTimer := None), None) else (s, None)
    case HoldTimerFired(id, g) =>
      if id in s.armed then (OpenMenu(cfg, s.(armed := s.armed - {id}), g), None) else (s, None)
    case Dismiss => (s.(showMenu := false), None)
    case OptionClick(o) =>
      if !Truthy(cfg.entity) || hass.None? then (s, None)
      else (s.(showMenu := false, pressedOption := Some(o.id)), OptionCall(cfg.entity.value, o.id))
    case PressedTimerElapsed => (s.(pressedOption := None), None)
  }

  function Run(cfg: SelectorConfig, hass: Option<Hass>, s: MenuState, es: seq<MenuEvent>): (MenuState, seq<ServiceCall>)
    decreases |es|
  {
    if |es| == 0 then (s, [])
    else
      var (s1, c) := Step(cfg, hass, s, es[0]);
      var (s2, cs) := Run(cfg, hass, s1, es[1..]);
      (s2, (if c.Some? then [c.value] else []) + cs)
  }

  /** Running a non-empty event list is running its tail from the state after its first event. */
  lemma RunCons(cfg: SelectorConfig, hass: Option<Hass>, s: MenuState, es: seq<MenuEvent>)
    requires |es| > 0
    ensures Run(cfg, hass, s, es).0 == Run(cfg, hass, Step(cfg, hass, s, es[0]).0, es[1..]).0
  {
  }

  /** A quick click on the closed menu opens it and leaves no hold timer pending. */
  lemma QuickClickOpens(cfg: SelectorConfig, hass: Option<Hass>, s: MenuState, g: Option<Geometry>)
    requires !s.showMenu && s.armed == {}
    ensures Run(cfg, hass, s, [PressStart, PressEnd, Click(g)]).0.showMenu
    ensures Run(cfg, hass, s, [PressStart, PressEnd, Click(g)]).0.armed == {}
  {
    var es := [PressStart, PressEnd, Click(g)];
    var s1 := Step(cfg, hass, s, PressStart).0;
    var s2 := Step(cfg, hass, s1, PressEnd).0;
    RunCons(cfg, hass, s, es);
    RunCons(cfg, hass, s1, es[1..]);
    RunCons(cfg, hass, s2, es[2..]);
    assert es[1..][1..] == es[2..] && es[2..][1..] == [];
  }

  /** Holding the button opens the menu when the hold timer fires, but the click that ends
      the press then finds the menu open and closes it again. */
  lemma HoldThenReleaseCloses(cfg: SelectorConfig, hass: Option<Hass>, s: MenuState, g1: Option<Geometry>, g2: Option<Geometry>)
    requires !s.showMenu
    ensures Run(cfg, hass, s, [PressStart, HoldTimerFired(s.nextTimerId, g1)]).0.showMenu
    ensures !Run(cfg, hass, s, [PressStart, HoldTimerFired(s.nextTimerId, g1), PressEnd, Click(g2)]).0.showMenu
  {
    var es := [PressStart, HoldTimerFired(s.nextTimerId, g1), PressEnd, Click(g2)];
    var s1 := Step(cfg, hass, s, PressStart).0;
    var s2 := Step(cfg, hass, s1, es[1]).0;
    var s3 := Step(cfg, hass, s2, PressEnd).0;
    assert s2.showMenu && s3.showMenu;
    RunCons(cfg, hass, s, es);
    RunCons(cfg, hass, s1, es[1..]);
    RunCons(cfg, hass, s2, es[2..]);
    RunCons(cfg, hass, s3, es[3..]);
    assert es[1..][1..] == es[2..] && es[2..][1..] == es[3..] && es[3..][1..] == [];
    var hold := [PressStart, HoldTimerFired(s.nextTimerId, g1)];
    RunCons(cfg, hass, s, hold);
    RunCons(cfg, hass, s1, hold[1..]);
    assert hold[1..][1..] == [];
  }

  /** Choosing an option of an `input_select` entity closes the menu and sends exactly that
      option to the entity. */
  lemma ChooseInputSelect(cfg: SelectorConfig, h: Hass, s: MenuState, rest: string, o: ConfigOption)
    requires cfg.entity == Some("input_select." + rest)
    ensures var (s1, c) := Step(cfg, Some(h), s, OptionClick(o));
      !s1.showMenu && c == Some(ServiceCall("input_select", Some("select_option"),
        map["entity_id" := JStr("input_select." + rest), "option" := JStr(o.id)]))
  {
    assert "input_select." + rest == "input_select" + "." + rest;
    DomainOf("input_select", rest);
  }

  /** An option's background: highlighted while it is the pressed option. */
  function OptionBackground(s: MenuState, option: ConfigOption): (c: string)
    ensures s.pressedOption == Some(option.id) ==> c == "rgba(255, 255, 255, 0.2)"
    ensures s.pressedOption != Some(option.id) ==> c == "transparent"
  {
    if s.pressedOption == Some(option.id) then "rgba(255, 255, 255, 0.2)" else "transparent"
  }

  /** The card's state as a component instance. */
  class ConfigSelectorMenu {
    const cfg: SelectorConfig
    var showMenu: bool
    var position: Position
    var pressedOption: Option<string>
    var holdTimer: Option<nat>
    var armed: set<nat>
    var nextTimerId: nat

    function State(): MenuState
      reads this
    {
      MenuState(showMenu, position, pressedOption, holdTimer, armed, nextTimerId)
    }

    constructor (cfg: SelectorConfig)
      ensures this.cfg == cfg && State() == Initial
    {
      this.cfg := cfg;
      showMenu := false;
      position := Below;
      pressedOption := None;
      holdTimer := None;
      armed := {};
      nextTimerId := 1;
    }

    method Open(geometry: Option<Geometry>)
      modifies this
      ensures State() == OpenMenu(cfg, old(State()), geometry)
    {
      if geometry.Some? && cfg.options.Some? {
        position := MenuPositionFor(geometry.value, |cfg.options.value|);
      }
      showMenu := true;
    }

    method OnClick(geometry: Option<Geometry>)
      modifies this
      ensures State() == Step(cfg, None, old(State()), Click(geometry)).0
    {
      if showMenu {
        showMenu := false;
        return;
      }
      Open(geometry);
    }

    method OnPressStart()
      modifies this
      ensures State() == Step(cfg, None, old(State()), PressStart).0
    {
      holdTimer := Some(nextTimerId);
      armed := armed + {nextTimerId};
      nextTimerId := nextTimerId + 1;
    }

    method OnPressEnd()
      modifies this
      ensures State() == Step(cfg, None, old(State()), PressEnd).0
    {
      if holdTimer.Some? {
        armed := armed - {holdTimer.value};
        holdTimer := None;
      }
    }

    method OnHoldTimer(id: nat, geometry: Option<Geometry>)
      modifies this
      ensures State() == Step(cfg, None, old(State()), HoldTimerFired(id, geometry)).0
    {
      if id in armed {
        armed := armed - {id};
        Open(geometry);
      }
    }

    method OnDismiss()
      modifies this
      ensures State() == Step(cfg, None, old(State()), Dismiss).0
    {
      showMenu := false;
    }

    method OnOptionClick(option: ConfigOption, hass: Option<Hass>) returns (call: Option<ServiceCall>)
      modifies this
      ensures (State(), call) == Step(cfg, hass, old(State()), OptionClick(option))
    {
      if !Truthy(cfg.entity) || hass.None? {
        return None;
      }
      pressedOption := Some(option.id);
      showMenu := false;
      call := OptionCall(cfg.entity.value, option.id);
    }

    method OnPressedTimer()
      modifies this
      ensures State() == Step(cfg, None, old(State()), PressedTimerElapsed).0
    {
      pressedOption := None;
    }
  }
}
