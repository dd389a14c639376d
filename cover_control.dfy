/**
 * The hold-versus-tap button handlers of src/cards/CoverControlButtonCard.tsx. Each of the
 * three buttons gets its own `holdTimer` and `isHolding`, driven by mouse-down, the 500 ms
 * hold timer firing, mouse-up and mouse-leave. The timer firing is an event of its own, and
 * the host's timer queue is the set of armed timer ids. The handlers are created in the
 * component body, so every render of the card (each `hass` update, src/utils/createReactCard.tsx)
 * gives the button a fresh closure while timers armed by earlier closures stay pending; a
 * render is an event too.
 */
module CoverControl {
  import opened JsText
  import opened HomeAssistant
  import opened ActionHandler

  datatype Button = Down | Stop | Up

  /** The service name each button's default calls within the `cover` domain. */
  function DefaultServiceName(b: Button): string
  {
    match b
    case Down => "close_cover"
    case Stop => "stop_cover"
    case Up => "open_cover"
  }

  /** The service each button calls when no action is configured: `cover.close_cover`,
      `cover.stop_cover` and `cover.open_cover`. */
  function DefaultService(b: Button): string
  {
    "cover." + DefaultServiceName(b)
  }

  /** `{ action: "call-service", service, target: { entity_id } }` */
  function DefaultAction(service: string, entity: string): TapAction
  {
    TapAction("call-service", None, None, Some(service), None, Some(EntityData(entity)), None)
  }

  /** The configuration one handler closes over. */
  datatype ButtonConfig = ButtonConfig(
    tapAction: Option<TapAction>,
    holdAction: Option<TapAction>,
    defaultService: string,
    entity: Option<string>)

  /** The action the timer callback hands to `handleTapAction`: the hold action; failing that
      and with an entity configured, the tap action or else the default service call; with no
      entity, nothing. */
  function HoldActionFor(cfg: ButtonConfig): (a: Option<TapAction>)
    ensures cfg.holdAction.Some? ==> a == cfg.holdAction
    ensures cfg.holdAction.None? && !Truthy(cfg.entity) ==> a.None?
    ensures cfg.holdAction.None? && Truthy(cfg.entity) ==>
      a == Some(if cfg.tapAction.Some? then cfg.tapAction.value else DefaultAction(cfg.defaultService, cfg.entity.value))
  {
    if cfg.holdAction.None? && Truthy(cfg.entity) then
      Some(if cfg.tapAction.Some? then cfg.tapAction.value else DefaultAction(cfg.defaultService, cfg.entity.value))
    else cfg.holdAction
  }

  /** The action mouse-up hands to `handleTapAction`: the tap action; failing that and with an
      entity configured, the default service call; with no entity, nothing. */
  function TapActionFor(cfg: ButtonConfig): (a: Option<TapAction>)
    ensures cfg.tapAction.Some? ==> a == cfg.tapAction
    ensures cfg.tapAction.None? && !Truthy(cfg.entity) ==> a.None?
    ensures cfg.tapAction.None? && Truthy(cfg.entity) ==> a == Some(DefaultAction(cfg.defaultService, cfg.entity.value))
  {
    if cfg.tapAction.None? && Truthy(cfg.entity) then Some(DefaultAction(cfg.defaultService, cfg.entity.value))
    else cfg.tapAction
  }

  /** A button's default action reaches the host as its `cover` service on the entity. */
  lemma DefaultActionCommand(b: Button, e: string, h: Hass)
    ensures HandleTapAction(Some(DefaultAction(DefaultService(b), e)), Some(h), Some(e)) ==
      Some(CallService(ServiceCall("cover", Some(DefaultServiceName(b)), EntityData(e))))
  {
    var n := DefaultServiceName(b);
    assert '.' !in n by {
      match b
      case Down =>
      case Stop =>
      case Up =>
    }
    ServiceActionCommand(n, e, h);
  }

  /** `{ action: "call-service", service: "cover.<n>", target: { entity_id } }` reaches the host
      as service `n` of the `cover` domain on the entity. */
  lemma ServiceActionCommand(n: string, e: string, h: Hass)
    requires '.' !in n
    ensures HandleTapAction(Some(DefaultAction("cover." + n, e)), Some(h), Some(e)) ==
      Some(CallService(ServiceCall("cover", Some(n), EntityData(e))))
  {
    assert "cover." + n == "cover" + "." + n;
    CallServiceAction(DefaultAction("cover." + n, e), h, Some(e), "cover", n);
    assert MergeServiceData(None, Some(EntityData(e))) == EntityData(e);
  }

  /** With no actions configured, both a tap and a hold on a button call its `cover` service
      on the configured entity. */
  lemma DefaultCommand(b: Button, e: string, h: Hass)
    requires e != ""
    ensures var cfg := ButtonConfig(None, None, DefaultService(b), Some(e));
      var cmd := Some(CallService(ServiceCall("cover", Some(DefaultServiceName(b)), EntityData(e))));
      HandleTapAction(TapActionFor(cfg), Some(h), Some(e)) == cmd &&
      HandleTapAction(HoldActionFor(cfg), Some(h), Some(e)) == cmd
  {
    var cfg := ButtonConfig(None, None, DefaultService(b), Some(e));
    assert TapActionFor(cfg) == Some(DefaultAction(DefaultService(b), e));
    assert HoldActionFor(cfg) == Some(DefaultAction(DefaultService(b), e));
    DefaultActionCommand(b, e, h);
  }

  // ---------------------------------------------------------------------------
  // the gesture machine

  /** The current closure's variables, plus the host's armed timers and its next timer id, plus
      the timers armed by the current closure (`own`): only their callbacks set this closure's
      `isHolding`, those of earlier closures set their own. */
  datatype Gesture = Gesture(holdTimer: Option<nat>, armed: set<nat>, isHolding: bool, nextTimerId: nat, own: set<nat>)

  datatype Event = MouseDown | TimerFired(id: nat) | MouseUp | MouseLeave | Render

  datatype Kind = Tap | Hold

  /** One call of `handleTapAction`, by the tap path or the hold path, with the action passed. */
  datatype Dispatch = Dispatch(kind: Kind, action: Option<TapAction>)

  /** The command a dispatch leads to on the host. */
  function DispatchCommand(cfg: ButtonConfig, hass: Option<Hass>, d: Dispatch): Option<Command>
  {
    HandleTapAction(d.action, hass, cfg.entity)
  }

  const Initial: Gesture := Gesture(None, {}, false, 1, {})

  /** `clearTimeout(holdTimer)` when a timer was ever set. */
  function ClearHoldTimer(g: Gesture): set<nat>
  {
    if g.holdTimer.Some? then g.armed - {g.holdTimer.value} else g.armed
  }

  /** The effect of one event: the new closure state and the dispatch it performs, if any. */
  function Step(cfg: ButtonConfig, g: Gesture, e: Event): (r: (Gesture, Option<Dispatch>))
    ensures e.MouseDown? ==>
      (!r.0.isHolding && r.0.holdTimer == Some(g.nextTimerId) && r.0.armed == g.armed + {g.nextTimerId} && r.1.None?)
    ensures e.TimerFired? && e.id in g.armed ==>
      r.0.isHolding == (g.isHolding || e.id in g.own) && e.id !in r.0.armed &&
      r.1 == Some(Dispatch(Hold, HoldActionFor(cfg)))
    ensures e.TimerFired? && e.id !in g.armed ==> r == (g, None)
    ensures e.MouseUp? ==> (r.1.Some? <==> !g.isHolding) && r.0.isHolding == g.isHolding
    ensures e.MouseUp? && !g.isHolding ==> r.1 == Some(Dispatch(Tap, TapActionFor(cfg)))
    ensures e.MouseUp? || e.MouseLeave? ==> g.holdTimer.Some? ==> g.holdTimer.value !in r.0.armed
    ensures e.MouseLeave? ==> r.0.isHolding == g.isHolding && r.1.None?
    ensures e.Render? ==>
      r.0.holdTimer.None? && !r.0.isHolding && r.0.own == {} && r.0.armed == g.armed && r.1.None?
    ensures r.0.armed <= g.armed + {g.nextTimerId}
  {
    match e
    case MouseDown =>
      (Gesture(Some(g.nextTimerId), g.armed + {g.nextTimerId}, false, g.nextTimerId + 1, g.own + {g.nextTimerId}), None)
    case TimerFired(id) =>
      if id in g.armed then
        (g.(armed := g.armed - {id}, isHolding := g.isHolding || id in g.own), Some(Dispatch(Hold, HoldActionFor(cfg))))
      else (g, None)
    case MouseUp =>
      (g.(armed := ClearHoldTimer(g)), if !g.isHolding then Some(Dispatch(Tap, TapActionFor(cfg))) else None)
    case MouseLeave =>
      (g.(armed := ClearHoldTimer(g)), None)
    case Render =>
      (g.(holdTimer := None, isHolding := false, own := {}), None)
  }

  /** The dispatches performed by a sequence of events, and the final state. */
  function Run(cfg: ButtonConfig, g: Gesture, es: seq<Event>): (Gesture, seq<Dispatch>)
    decreases |es|
  {
    if |es| == 0 then (g, [])
    else
      var (g1, d) := Step(cfg, g, es[0]);
      var (g2, ds) := Run(cfg, g1, es[1..]);
      (g2, (if d.Some? then [d.value] else []) + ds)
  }

  /** The events that may come between pressing and releasing the button within one render. */
  predicate WhileHeld(es: seq<Event>)
  {
    forall i :: 0 <= i < |es| ==> es[i].TimerFired? || es[i].MouseLeave?
  }

  /** The state of a press in progress: the only timer that can still fire is the one this
      press armed, and a hold has been dispatched exactly when `isHolding` is set. */
  predicate Pressing(g: Gesture, id: nat)
  {
    g.holdTimer == Some(id) && id in g.own && g.armed <= {id} && (g.isHolding ==> id !in g.armed)
  }

  lemma {:induction false} RunWhileHeld(cfg: ButtonConfig, g: Gesture, id: nat, es: seq<Event>)
    requires Pressing(g, id) && WhileHeld(es)
    ensures Pressing(Run(cfg, g, es).0, id)
    ensures Run(cfg, g, es).0.isHolding == (g.isHolding || |Run(cfg, g, es).1| == 1)
    ensures |Run(cfg, g, es).1| <= 1
    ensures g.isHolding ==> |Run(cfg, g, es).1| == 0
    ensures forall k :: 0 <= k < |Run(cfg, g, es).1| ==> Run(cfg, g, es).1[k] == Dispatch(Hold, HoldActionFor(cfg))
    decreases |es|
  {
    if |es| > 0 {
      var (g1, d) := Step(cfg, g, es[0]);
      assert WhileHeld(es[1..]) by {
        forall i | 0 <= i < |es[1..]| ensures es[1..][i].TimerFired? || es[1..][i].MouseLeave? {
          assert es[1..][i] == es[i + 1];
        }
      }
      RunWhileHeld(cfg, g1, id, es[1..]);
    }
  }

  /** No mouse-leave among the first `k` events. */
  predicate NoLeaveBefore(es: seq<Event>, k: nat)
    requires k <= |es|
  {
    forall j :: 0 <= j < k ==> !es[j].MouseLeave?
  }

  /** Timer `id` fires before the mouse leaves the button. */
  predicate FiresBeforeLeave(es: seq<Event>, id: nat)
  {
    exists k :: 0 <= k < |es| && es[k] == TimerFired(id) && NoLeaveBefore(es, k)
  }

  /** While the button is held and no hold has been dispatched yet, a hold is dispatched
      exactly when the press's own timer is still armed and fires before the mouse leaves. */
  lemma {:induction false} RunWhileHeldFires(cfg: ButtonConfig, g: Gesture, id: nat, es: seq<Event>)
    requires Pressing(g, id) && WhileHeld(es) && !g.isHolding
    ensures |Run(cfg, g, es).1| == 1 <==> id in g.armed && FiresBeforeLeave(es, id)
    decreases |es|
  {
    if |es| > 0 {
      var (g1, d) := Step(cfg, g, es[0]);
      assert WhileHeld(es[1..]) by {
        forall i | 0 <= i < |es[1..]| ensures es[1..][i].TimerFired? || es[1..][i].MouseLeave? {
          assert es[1..][i] == es[i + 1];
        }
      }
      if es[0].MouseLeave? {
        RunWhileHeldFires(cfg, g1, id, es[1..]);
        assert !FiresBeforeLeave(es, id) by {
          forall k | 0 <= k < |es| && es[k] == TimerFired(id)
            ensures !NoLeaveBefore(es, k)
          {
            assert k > 0;
          }
        }
      } else if es[0].id in g.armed {
        assert es[0] == TimerFired(id);
        RunWhileHeld(cfg, g1, id, es[1..]);
        assert NoLeaveBefore(es, 0);
      } else {
        RunWhileHeldFires(cfg, g1, id, es[1..]);
        if id in g.armed {
          assert es[0] != TimerFired(id);
          if FiresBeforeLeave(es, id) {
            var k :| 0 <= k < |es| && es[k] == TimerFired(id) && NoLeaveBefore(es, k);
            assert es[1..][k - 1] == es[k];
            assert NoLeaveBefore(es[1..], k - 1) by {
              forall j | 0 <= j < k - 1 ensures !es[1..][j].MouseLeave? {
                assert es[1..][j] == es[j + 1];
              }
            }
          }
          if FiresBeforeLeave(es[1..], id) {
            var k :| 0 <= k < |es[1..]| && es[1..][k] == TimerFired(id) && NoLeaveBefore(es[1..], k);
            assert es[k + 1] == TimerFired(id);
            assert NoLeaveBefore(es, k + 1) by {
              forall j | 0 < j < k + 1 ensures !es[j].MouseLeave? {
                assert es[j] == es[1..][j - 1];
              }
            }
          }
        }
      }
    }
  }

  /** A press within one render — mouse-down, any timer firings and mouse-leaves, mouse-up —
      starting with no armed timer dispatches exactly once: the hold action if the hold timer
      fired before the mouse left the button, else the tap action. */
  lemma PressDispatchesOnce(cfg: ButtonConfig, g: Gesture, mid: seq<Event>)
    requires g.armed == {} && WhileHeld(mid)
    ensures var ds := Run(cfg, g, [MouseDown] + mid + [MouseUp]).1;
      |ds| == 1 &&
      (ds[0] == Dispatch(Hold, HoldActionFor(cfg)) || ds[0] == Dispatch(Tap, TapActionFor(cfg))) &&
      (ds[0].kind == Hold <==> FiresBeforeLeave(mid, g.nextTimerId))
  {
    var es := [MouseDown] + mid + [MouseUp];
    var (g1, d1) := Step(cfg, g, MouseDown);
    assert es[1..] == mid + [MouseUp];
    RunWhileHeld(cfg, g1, g.nextTimerId, mid);
    RunWhileHeldFires(cfg, g1, g.nextTimerId, mid);
    RunAppend(cfg, g1, mid, [MouseUp]);
  }

  lemma {:induction false} RunAppend(cfg: ButtonConfig, g: Gesture, a: seq<Event>, b: seq<Event>)
    ensures Run(cfg, g, a + b).0 == Run(cfg, Run(cfg, g, a).0, b).0
    ensures Run(cfg, g, a + b).1 == Run(cfg, g, a).1 + Run(cfg, Run(cfg, g, a).0, b).1
    decreases |a|
  {
    if |a| > 0 {
      assert (a + b)[0] == a[0];
      assert (a + b)[1..] == a[1..] + b;
      var (g1, d) := Step(cfg, g, a[0]);
      RunAppend(cfg, g1, a[1..], b);
    } else {
      assert a + b == b;
    }
  }

  /** A second mouse-down before mouse-up overwrites `holdTimer`, so mouse-up cannot cancel
      the first timer: it later fires and dispatches a hold after the tap. */
  lemma OrphanedTimer(cfg: ButtonConfig)
    ensures Run(cfg, Initial, [MouseDown, MouseDown, MouseUp, TimerFired(1)]).1 ==
      [Dispatch(Tap, TapActionFor(cfg)), Dispatch(Hold, HoldActionFor(cfg))]
  {
    var es := [MouseDown, MouseDown, MouseUp, TimerFired(1)];
    var g1 := Step(cfg, Initial, MouseDown).0;
    var g2 := Step(cfg, g1, MouseDown).0;
    var g3 := Step(cfg, g2, MouseUp).0;
    assert g3.armed == {1};
    assert es[1..] == [MouseDown, MouseUp, TimerFired(1)];
    assert es[1..][1..] == [MouseUp, TimerFired(1)];
    assert es[1..][1..][1..] == [TimerFired(1)];
  }

  /** A render between the hold timer firing and mouse-up gives the button a closure with
      `isHolding` false, so the release also dispatches the tap action. */
  lemma RenderDuringHold(cfg: ButtonConfig)
    ensures Run(cfg, Initial, [MouseDown, TimerFired(1), Render, MouseUp]).1 ==
      [Dispatch(Hold, HoldActionFor(cfg)), Dispatch(Tap, TapActionFor(cfg))]
  {
    var es := [MouseDown, TimerFired(1), Render, MouseUp];
    assert es[1..] == [TimerFired(1), Render, MouseUp];
    assert es[1..][1..] == [Render, MouseUp];
    assert es[1..][1..][1..] == [MouseUp];
  }

  /** A render between mouse-down and mouse-up leaves the new closure without a `holdTimer`
      to clear, so the release dispatches the tap action and the pending timer then
      dispatches the hold action. */
  lemma RenderDuringPress(cfg: ButtonConfig)
    ensures Run(cfg, Initial, [MouseDown, Render, MouseUp, TimerFired(1)]).1 ==
      [Dispatch(Tap, TapActionFor(cfg)), Dispatch(Hold, HoldActionFor(cfg))]
  {
    var es := [MouseDown, Render, MouseUp, TimerFired(1)];
    assert es[1..] == [Render, MouseUp, TimerFired(1)];
    assert es[1..][1..] == [MouseUp, TimerFired(1)];
    assert es[1..][1..][1..] == [TimerFired(1)];
  }

  // ---------------------------------------------------------------------------
  // handlers that survive renders

  /** The gesture machine with the closure kept across renders (as a `useRef` holding the
      handler would): a render changes nothing. */
  function StepAcrossRenders(cfg: ButtonConfig, g: Gesture, e: Event): (r: (Gesture, Option<Dispatch>))
    ensures e.Render? ==> r == (g, None)
    ensures !e.Render? ==> r == Step(cfg, g, e)
  {
    if e.Render? then (g, None) else Step(cfg, g, e)
  }

  function RunAcrossRenders(cfg: ButtonConfig, g: Gesture, es: seq<Event>): (Gesture, seq<Dispatch>)
    decreases |es|
  {
    if |es| == 0 then (g, [])
    else
      var (g1, d) := StepAcrossRenders(cfg, g, es[0]);
      var (g2, ds) := RunAcrossRenders(cfg, g1, es[1..]);
      (g2, (if d.Some? then [d.value] else []) + ds)
  }

  /** The events other than renders, in order. */
  function DropRenders(es: seq<Event>): (r: seq<Event>)
    ensures forall e :: e in r <==> e in es && !e.Render?
    decreases |es|
  {
    if |es| == 0 then []
    else
      var rest := DropRenders(es[1..]);
      assert es == [es[0]] + es[1..];
      if es[0].Render? then rest else [es[0]] + rest
  }

  lemma {:induction false} DropRendersAppend(a: seq<Event>, b: seq<Event>)
    ensures DropRenders(a + b) == DropRenders(a) + DropRenders(b)
    decreases |a|
  {
    if |a| > 0 {
      var ab := a + b;
      assert ab[0] == a[0] && ab[1..] == a[1..] + b;
      DropRendersAppend(a[1..], b);
      if !a[0].Render? {
        assert [a[0]] + (DropRenders(a[1..]) + DropRenders(b)) == ([a[0]] + DropRenders(a[1..])) + DropRenders(b);
      }
    } else {
      assert a + b == b;
    }
  }

  /** With the closure kept, renders are invisible: the run is the run of the other events. */
  lemma {:induction false} RunAcrossRendersDrops(cfg: ButtonConfig, g: Gesture, es: seq<Event>)
    ensures RunAcrossRenders(cfg, g, es) == Run(cfg, g, DropRenders(es))
    decreases |es|
  {
    if |es| > 0 {
      var (g1, d) := StepAcrossRenders(cfg, g, es[0]);
      RunAcrossRendersDrops(cfg, g1, es[1..]);
      if es[0].Render? {
        assert DropRenders(es) == DropRenders(es[1..]);
        var rest := RunAcrossRenders(cfg, g, es[1..]);
        assert RunAcrossRenders(cfg, g, es) == (rest.0, [] + rest.1);
        assert [] + rest.1 == rest.1;
      } else {
        var dropped := DropRenders(es);
        assert dropped == [es[0]] + DropRenders(es[1..]);
        assert dropped[0] == es[0] && dropped[1..] == DropRenders(es[1..]);
      }
    }
  }

  /** With the closure kept across renders, a press dispatches exactly once whatever renders
      happen while the button is down: the hold action iff the press's timer fired before the
      mouse left, else the tap action. */
  lemma PressAcrossRendersDispatchesOnce(cfg: ButtonConfig, g: Gesture, mid: seq<Event>)
    requires g.armed == {}
    requires forall i :: 0 <= i < |mid| ==> mid[i].TimerFired? || mid[i].MouseLeave? || mid[i].Render?
    ensures var ds := RunAcrossRenders(cfg, g, [MouseDown] + mid + [MouseUp]).1;
      |ds| == 1 &&
      (ds[0] == Dispatch(Hold, HoldActionFor(cfg)) || ds[0] == Dispatch(Tap, TapActionFor(cfg))) &&
      (ds[0].kind == Hold <==> FiresBeforeLeave(DropRenders(mid), g.nextTimerId))
  {
    var held := DropRenders(mid);
    assert WhileHeld(held) by {
      forall i | 0 <= i < |held| ensures held[i].TimerFired? || held[i].MouseLeave? {
        assert held[i] in held;
      }
    }
    DropRendersAppend([MouseDown] + mid, [MouseUp]);
    DropRendersAppend([MouseDown], mid);
    assert DropRenders([MouseDown]) == [MouseDown] by { assert [MouseDown][1..] == []; }
    assert DropRenders([MouseUp]) == [MouseUp] by { assert [MouseUp][1..] == []; }
    RunAcrossRendersDrops(cfg, g, [MouseDown] + mid + [MouseUp]);
    PressDispatchesOnce(cfg, g, held);
  }

  /** `createButtonHandler(tapAction, holdAction, defaultService)`: the closure as an object.
      Each handler returns the `handleTapAction` call it makes, if any. */
  class ButtonHandler {
    const cfg: ButtonConfig
    var holdTimer: Option<nat>
    var isHolding: bool
    var armed: set<nat>
    var nextTimerId: nat
    var own: set<nat>

    function State(): Gesture
      reads this
    {
      Gesture(holdTimer, armed, isHolding, nextTimerId, own)
    }

    constructor (tapAction: Option<TapAction>, holdAction: Option<TapAction>, defaultService: string, entity: Option<string>)
      ensures cfg == ButtonConfig(tapAction, holdAction, defaultService, entity)
      ensures State() == Initial
    {
      cfg := ButtonConfig(tapAction, holdAction, defaultService, entity);
      holdTimer := None;
      isHolding := false;
      armed := {};
      nextTimerId := 1;
      own := {};
    }

    method OnMouseDown()
      modifies this
      ensures State() == Step(cfg, old(State()), MouseDown).0
    {
      isHolding := false;
      holdTimer := Some(nextTimerId);
      armed := armed + {nextTimerId};
      own := own + {nextTimerId};
      nextTimerId := nextTimerId + 1;
    }

    method OnTimerFired(id: nat) returns (d: Option<Dispatch>)
      modifies this
      ensures (State(), d) == Step(cfg, old(State()), TimerFired(id))
    {
      d := None;
      if id in armed {
        armed := armed - {id};
        isHolding := isHolding || id in own;
        var action := cfg.holdAction;
        if action.None? && Truthy(cfg.entity) {
          action := if cfg.tapAction.Some? then cfg.tapAction else Some(DefaultAction(cfg.defaultService, cfg.entity.value));
        }
        d := Some(Dispatch(Hold, action));
      }
    }

    method OnMouseUp() returns (d: Option<Dispatch>)
      modifies this
      ensures (State(), d) == Step(cfg, old(State()), MouseUp)
    {
      if holdTimer.Some? {
        armed := armed - {holdTimer.value};
      }
      d := None;
      if !isHolding {
        var action := cfg.tapAction;
        if action.None? && Truthy(cfg.entity) {
          action := Some(DefaultAction(cfg.defaultService, cfg.entity.value));
        }
        d := Some(Dispatch(Tap, action));
      }
    }

    method OnMouseLeave()
      modifies this
      ensures State() == Step(cfg, old(State()), MouseLeave).0
    {
      if holdTimer.Some? {
        armed := armed - {holdTimer.value};
      }
    }

    /** A render of the card: the button's handlers are those of a fresh closure; timers
        already armed stay pending. */
    method OnRender()
      modifies this
      ensures State() == Step(cfg, old(State()), Render).0
    {
      holdTimer := None;
      isHolding := false;
      own := {};
    }
  }

  /** The three handlers of the card, one per button. */
  method CoverHandlers(tapDown: Option<TapAction>, holdDown: Option<TapAction>,
                       tapStop: Option<TapAction>, holdStop: Option<TapAction>,
                       tapUp: Option<TapAction>, holdUp: Option<TapAction>, entity: Option<string>)
    returns (down: ButtonHandler, stop: ButtonHandler, up: ButtonHandler)
    ensures down.cfg == ButtonConfig(tapDown, holdDown, DefaultService(Down), entity)
    ensures stop.cfg == ButtonConfig(tapStop, holdStop, DefaultService(Stop), entity)
    ensures up.cfg == ButtonConfig(tapUp, holdUp, DefaultService(Up), entity)
    ensures fresh(down) && fresh(stop) && fresh(up)
    ensures down.State() == Initial && stop.State() == Initial && up.State() == Initial
  {
    down := new ButtonHandler(tapDown, holdDown, DefaultService(Down), entity);
    stop := new ButtonHandler(tapStop, holdStop, DefaultService(Stop), entity);
    up := new ButtonHandler(tapUp, holdUp, DefaultService(Up), entity);
  }
}
