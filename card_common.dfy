/**
 * Rules several display cards share: when a reading counts as unknown, how a reading is
 * coloured, and the variables handed to `evaluateExpression`.
 *
 * `evaluateExpression` and `resolveColor` (imported from src/utils/widgetUtils.ts) are not
 * part of this model: the cards receive them as parameters, `evaluate(expr, value, vars)`
 * with the host captured, and `resolveColor(name)`.
 */
module CardCommon {
  import opened JsText
  import opened HomeAssistant

  /** The variables a card passes to `evaluateExpression` besides the raw value. */
  datatype ExprVars =
    | NoVars                                                                  // `{}`
    | FriendlyName(fn: Option<string>)                                        // `{ fn }`
    | EntityVars(entity: Option<EntityState>, states: Option<map<string, EntityState>>)  // `{ entity, states }`

  /** The grey of unknown readings. */
  const Dimmed := "#888"

  /** A reading is unknown when it is missing or empty, or is "unknown" or "unavailable". */
  predicate IsUnknown(raw: Option<string>)
  {
    !Truthy(raw) || raw.value == "unknown" || raw.value == "unavailable"
  }

  /** Colours of one reading: icon and text greyed out when unknown; otherwise the text is
      white and the icon takes its configured colour, white without one. */
  datatype ReadingStyle = ReadingStyle(iconColor: string, textColor: string)

  function StyleOf(unknown: bool, iconColor: Option<string>, resolveColor: string -> string): (s: ReadingStyle)
    ensures unknown ==> s == ReadingStyle(resolveColor(Dimmed), Dimmed)
    ensures !unknown ==> s.textColor == "white"
    ensures !unknown && Truthy(iconColor) ==> s.iconColor == resolveColor(iconColor.value)
    ensures !unknown && !Truthy(iconColor) ==> s.iconColor == resolveColor("white")
  {
    if unknown then ReadingStyle(resolveColor(Dimmed), Dimmed)
    else ReadingStyle(resolveColor(OrElse(iconColor, "white")), "white")
  }

  /** `entity?.attributes.friendly_name` */
  function FriendlyNameOf(e: Option<EntityState>): (n: Option<string>)
    ensures n.Some? <==> e.Some? && "friendly_name" in e.value.attributes
  {
    if e.Some? && "friendly_name" in e.value.attributes then Some(e.value.attributes["friendly_name"]) else None
  }
}
