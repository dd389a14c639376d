/**
 * src/utils/templateHelper.ts: recognising Jinja2 templates, normalising the host's reply
 * to a template evaluation, mapping it to a boolean, and collecting the boolean results
 * of several evaluations by index.
 */
module TemplateHelper {
  import opened JsText

  /** The JavaScript values a config field or a host reply can hold. A number carries the
      text `String(n)` gives for it; NaN is not modelled. */
  datatype JsValue =
    | JsUndefined
    | JsNull
    | JsBool(b: bool)
    | JsNumber(n: real, text: string)
    | JsString(s: string)

  /** JavaScript truthiness. */
  predicate JsTruthy(v: JsValue)
  {
    match v
    case JsUndefined => false
    case JsNull => false
    case JsBool(b) => b
    case JsNumber(n, _) => n != 0.0
    case JsString(s) => s != ""
  }

  /** `String(v)` */
  function ToJsString(v: JsValue): string
  {
    match v
    case JsUndefined => "undefined"
    case JsNull => "null"
    case JsBool(b) => if b then "true" else "false"
    case JsNumber(_, text) => text
    case JsString(s) => s
  }

  /** `isTemplate(value)`: a string containing `{{` or `{%`. */
  predicate IsTemplate(v: JsValue)
  {
    v.JsString? && (Includes(v.s, "{{") || Includes(v.s, "{%"))
  }

  /** IsTemplate holds exactly for strings in which `{{` or `{%` occurs somewhere. */
  lemma IsTemplateIff(v: JsValue)
    ensures IsTemplate(v) <==>
      v.JsString? && ((exists i :: OccursAt(v.s, "{{", i)) || (exists i :: OccursAt(v.s, "{%", i)))
  {
    if v.JsString? {
      IncludesAt(v.s, "{{");
      IncludesAt(v.s, "{%");
    }
  }

  /** How one transport attempt ended: it threw, or it produced a value. */
  datatype Outcome = Threw | Returned(value: JsValue)

  /** `evaluateTemplate`: the REST reply, falling back to the WebSocket reply when the REST
      call throws. `None` is a rejected promise (both transports threw). */
  function EvaluateTemplate(rest: Outcome, ws: Outcome): (r: Option<string>)
    ensures r.None? <==> rest.Threw? && ws.Threw?
    ensures rest.Returned? && (rest.value.JsNull? || rest.value.JsUndefined?) ==> r == Some("null")
    ensures rest.Returned? && !(rest.value.JsNull? || rest.value.JsUndefined?) ==> r == Some(ToJsString(rest.value))
    ensures rest.Threw? && ws.Returned? && !JsTruthy(ws.value) ==> r == Some("null")
    ensures rest.Threw? && ws.Returned? && JsTruthy(ws.value) ==> r == Some(ToJsString(ws.value))
  {
    match rest
    case Returned(v) =>
      if v.JsNull? || v.JsUndefined? then Some("null") else Some(ToJsString(v))
    case Threw =>
      match ws
      case Returned(w) => Some(ToJsString(if JsTruthy(w) then w else JsString("null")))
      case Threw => None
  }

  /** `evaluateTemplateAsBoolean` once the reply is in, with the source's three explicit
      branches and its final default. */
  function AsBoolean(result: string): (b: bool)
    ensures b <==> result == "True" || result == "true"
  {
    if result == "True" || result == "true" then true
    else if result == "False" || result == "false" then false
    else if result == "null" || result == "None" then false
    else false
  }

  /** One entry of `evaluateTemplates`: a rejected evaluation is caught and becomes false. */
  function TemplateBool(reply: Option<string>): (b: bool)
    ensures reply.None? ==> !b
    ensures b <==> reply == Some("True") || reply == Some("true")
  {
    match reply
    case Some(s) => AsBoolean(s)
    case None => false
  }

  datatype TemplateRequest = TemplateRequest(index: nat, template: string)

  /** `evaluateTemplates(hass, templates)`, with the evaluations performed one after another;
      `evaluate` stands for `evaluateTemplate` against the host. */
  method EvaluateTemplates(requests: seq<TemplateRequest>, evaluate: string -> Option<string>)
    returns (results: map<nat, bool>)
    ensures results.Keys == set r | r in requests :: r.index
    ensures forall i :: 0 <= i < |requests| && (forall j :: i < j < |requests| ==> requests[j].index != requests[i].index) ==>
      results[requests[i].index] == TemplateBool(evaluate(requests[i].template))
  {
    results := map[];
    for n := 0 to |requests|
      invariant EvaluatedUpTo(requests, evaluate, results, n)
    {
      EvaluateStep(requests, evaluate, results, n);
      results := results[requests[n].index := TemplateBool(evaluate(requests[n].template))];
    }
    assert requests[..|requests|] == requests;
    forall i | 0 <= i < |requests| && (forall j :: i < j < |requests| ==> requests[j].index != requests[i].index)
      ensures results[requests[i].index] == TemplateBool(evaluate(requests[i].template))
    {
      assert LastOfIndex(requests, i, |requests|);
    }
  }

  function IndicesOf(requests: seq<TemplateRequest>): set<nat>
  {
    set r | r in requests :: r.index
  }

  /** No request among the first `n` after position `i` has the same index as request `i`. */
  predicate LastOfIndex(requests: seq<TemplateRequest>, i: nat, n: nat)
    requires i < n <= |requests|
  {
    forall j :: i < j < n ==> requests[j].index != requests[i].index
  }

  /** `results` holds the outcome of the first `n` requests, a later request of the same
      index overwriting an earlier one. */
  predicate EvaluatedUpTo(requests: seq<TemplateRequest>, evaluate: string -> Option<string>, results: map<nat, bool>, n: nat)
  {
    n <= |requests| &&
    results.Keys == IndicesOf(requests[..n]) &&
    forall i :: 0 <= i < n && LastOfIndex(requests, i, n) ==>
      requests[i].index in results && results[requests[i].index] == TemplateBool(evaluate(requests[i].template))
  }

  lemma EvaluateStep(requests: seq<TemplateRequest>, evaluate: string -> Option<string>, results: map<nat, bool>, n: nat)
    requires EvaluatedUpTo(requests, evaluate, results, n) && n < |requests|
    ensures EvaluatedUpTo(requests, evaluate,
      results[requests[n].index := TemplateBool(evaluate(requests[n].template))], n + 1)
  {
    var next := results[requests[n].index := TemplateBool(evaluate(requests[n].template))];
    IndicesStep(requests, n);
    assert next.Keys == results.Keys + {requests[n].index};
    ValuesStep(requests, evaluate, results, n);
  }

  /** After request `n`, every request not overwritten later holds its own outcome. */
  lemma ValuesStep(requests: seq<TemplateRequest>, evaluate: string -> Option<string>, results: map<nat, bool>, n: nat)
    requires EvaluatedUpTo(requests, evaluate, results, n) && n < |requests|
    ensures forall i :: 0 <= i < n + 1 && LastOfIndex(requests, i, n + 1) ==>
      var next := results[requests[n].index := TemplateBool(evaluate(requests[n].template))];
      requests[i].index in next && next[requests[i].index] == TemplateBool(evaluate(requests[i].template))
  {
    var next := results[requests[n].index := TemplateBool(evaluate(requests[n].template))];
    forall i | 0 <= i < n + 1 && LastOfIndex(requests, i, n + 1)
      ensures requests[i].index in next && next[requests[i].index] == TemplateBool(evaluate(requests[i].template))
    {
      if i < n {
        assert requests[n].index != requests[i].index;
        assert LastOfIndex(requests, i, n);
      }
    }
  }

  lemma IndicesStep(requests: seq<TemplateRequest>, n: nat)
    requires n < |requests|
    ensures IndicesOf(requests[..n + 1]) == IndicesOf(requests[..n]) + {requests[n].index}
  {
    assert requests[..n + 1] == requests[..n] + [requests[n]];
  }
}
