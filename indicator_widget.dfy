/**
 * src/cards/IndicatorWidgetCard.tsx: a square showing an entity's value, a title and up to
 * four corner values, on a background colour; title, value and colour can each be replaced
 * by an expression evaluated on the entity's state.
 */
module IndicatorWidget {
  import opened JsText
  import opened HomeAssistant
  import opened CardCommon

  datatype IndicatorConfig = IndicatorConfig(
    title: Option<string>,
    titleExpr: Option<string>,
    entity: Option<string>,
    valueExpr: Option<string>,
    entityNW: Option<string>,
    entityNE: Option<string>,
    entitySW: Option<string>,
    entitySE: Option<string>,
    bgColor: Option<string>,
    bgColorExpr: Option<string>)

  /** What the view receives; a corner is `None` when nothing is shown there. */
  datatype IndicatorView = IndicatorView(
    title: string,
    bgColor: string,
    value: Option<string>,
    nw: Option<string>,
    ne: Option<string>,
    sw: Option<string>,
    se: Option<string>)

  function RawValue(cfg: IndicatorConfig, hass: Option<Hass>): Option<string>
  {
    LookupState(hass, cfg.entity)
  }

  /** The title: the expression's result (`""` when it yields nothing) when a title expression
      is set; otherwise the configured title, the entity's friendly name, or `""`. */
  function Title(cfg: IndicatorConfig, hass: Option<Hass>, evaluate: (string, string, ExprVars) -> Option<string>): (t: string)
    ensures Truthy(cfg.titleExpr) ==> (t ==
      Coalesce(evaluate(cfg.titleExpr.value, Coalesce(RawValue(cfg, hass), ""),
        FriendlyName(FriendlyNameOf(LookupEntityInState(hass, cfg.entity)))), ""))
    ensures !Truthy(cfg.titleExpr) && cfg.title.Some? ==> t == cfg.title.value
    ensures !Truthy(cfg.titleExpr) && cfg.title.None? ==> t == Coalesce(FriendlyNameOf(LookupEntityInState(hass, cfg.entity)), "")
  {
    var entityMain := LookupEntityInState(hass, cfg.entity);
    var fn := FriendlyNameOf(entityMain);
    if Truthy(cfg.titleExpr) then
      Coalesce(evaluate(cfg.titleExpr.value, Coalesce(RawValue(cfg, hass), ""), FriendlyName(fn)), "")
    else match cfg.title
      case Some(t) => t
      case None => Coalesce(fn, "")
  }

  /** The background colour's name: the expression's result when a colour expression is set,
      else the configured colour when truthy, else "Undefined". */
  function BgColorName(cfg: IndicatorConfig, hass: Option<Hass>, evaluate: (string, string, ExprVars) -> Option<string>): (n: string)
    ensures Truthy(cfg.bgColorExpr) ==> n == Coalesce(evaluate(cfg.bgColorExpr.value, Coalesce(RawValue(cfg, hass), ""), NoVars), "")
    ensures !Truthy(cfg.bgColorExpr) && Truthy(cfg.bgColor) ==> n == cfg.bgColor.value
    ensures !Truthy(cfg.bgColorExpr) && !Truthy(cfg.bgColor) ==> n == "Undefined"
  {
    if Truthy(cfg.bgColorExpr) then Coalesce(evaluate(cfg.bgColorExpr.value, Coalesce(RawValue(cfg, hass), ""), NoVars), "")
    else OrElse(cfg.bgColor, "Undefined")
  }

  /** The main value: the expression's result when a value expression is set, else the
      entity's state; `""` in place of either when missing. */
  function Value(cfg: IndicatorConfig, hass: Option<Hass>, evaluate: (string, string, ExprVars) -> Option<string>): (v: string)
    ensures Truthy(cfg.valueExpr) ==> v == Coalesce(evaluate(cfg.valueExpr.value, Coalesce(RawValue(cfg, hass), ""), NoVars), "")
    ensures !Truthy(cfg.valueExpr) ==> v == Coalesce(RawValue(cfg, hass), "")
  {
    if Truthy(cfg.valueExpr) then Coalesce(evaluate(cfg.valueExpr.value, Coalesce(RawValue(cfg, hass), ""), NoVars), "")
    else Coalesce(RawValue(cfg, hass), "")
  }

  /** A corner shows its entity's state when that state is a non-empty string. */
  function Corner(hass: Option<Hass>, entity: Option<string>): (c: Option<string>)
    ensures c.Some? <==> Truthy(LookupState(hass, entity))
    ensures c.Some? ==> c == LookupState(hass, entity)
  {
    var s := LookupState(hass, entity);
    if Truthy(s) then s else None
  }

  /** The whole card. */
  function Indicator(cfg: IndicatorConfig, hass: Option<Hass>, evaluate: (string, string, ExprVars) -> Option<string>,
                     resolveColor: string -> string): (v: IndicatorView)
    ensures v.title == Title(cfg, hass, evaluate)
    ensures v.bgColor == resolveColor(BgColorName(cfg, hass, evaluate))
    ensures v.value == Some(Value(cfg, hass, evaluate))
    ensures v.nw == Corner(hass, cfg.entityNW) && v.ne == Corner(hass, cfg.entityNE)
    ensures v.sw == Corner(hass, cfg.entitySW) && v.se == Corner(hass, cfg.entitySE)
  {
    IndicatorView(Title(cfg, hass, evaluate), resolveColor(BgColorName(cfg, hass, evaluate)), Some(Value(cfg, hass, evaluate)),
      Corner(hass, cfg.entityNW), Corner(hass, cfg.entityNE), Corner(hass, cfg.entitySW), Corner(hass, cfg.entitySE))
  }

  /** `props.value ?? "N/A"`, the text the view shows for the main value. */
  function ShownValue(v: IndicatorView): (s: string)
    ensures v.value.Some? ==> s == v.value.value
    ensures v.value.None? ==> s == "N/A"
  {
    Coalesce(v.value, "N/A")
  }

  /** The "N/A" fallback of the view is unreachable: the card always hands it a string, the
      empty string when the entity has no state. */
  lemma NotAvailableUnreachable(cfg: IndicatorConfig, hass: Option<Hass>, evaluate: (string, string, ExprVars) -> Option<string>,
                                resolveColor: string -> string)
    requires !Truthy(cfg.valueExpr)
    ensures ShownValue(Indicator(cfg, hass, evaluate, resolveColor)) == Coalesce(RawValue(cfg, hass), "")
  {
  }

  /** Expressions are consulted only when configured: without any, the card does not depend
      on the evaluator. */
  lemma NoExpressionsNoEvaluation(cfg: IndicatorConfig, hass: Option<Hass>,
                                  e1: (string, string, ExprVars) -> Option<string>, e2: (string, string, ExprVars) -> Option<string>,
                                  resolveColor: string -> string)
    requires !Truthy(cfg.titleExpr) && !Truthy(cfg.valueExpr) && !Truthy(cfg.bgColorExpr)
    ensures Indicator(cfg, hass, e1, resolveColor) == Indicator(cfg, hass, e2, resolveColor)
  {
  }
}
