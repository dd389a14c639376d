/**
 * `NumberRangeValueClassifier` of src/registry/numberRangeValueClassifier.ts: a spec such as
 * `"10:green;20:orange;*:red"` is parsed into ranges, and a value is given the colour of the
 * first range it falls into.
 *
 * `Number()` is the parameter `toNumber`, `None` standing for NaN; the theme's table of named
 * colours is the parameter `namedColors`.
 */
module RangeClassifier {
  import opened JsText

  /** A range's threshold: `*` (stored as null) or the number parsed from the text. */
  datatype Threshold = Wildcard | Bound(limit: Option<real>)

  /** `{ value, color }`; the colour is undefined when the part has no `:`. */
  datatype RangeData = RangeData(value: Threshold, color: Option<string>)

  /** One `;`-separated part: split on `:`, both halves trimmed, `*` a wildcard. */
  function ParseRange(part: string, toNumber: string -> Option<real>): (r: RangeData)
    ensures r.value.Wildcard? <==> Trim(Head(part, ':')) == "*"
    ensures r.value.Bound? ==> r.value.limit == toNumber(Trim(Head(part, ':')))
    ensures r.color.Some? <==> ':' in part
    ensures r.color.Some? ==> r.color.value == Trim(Head(part[|Head(part, ':')| + 1..], ':'))
  {
    var pieces := Split(part, ':');
    SplitAtFirst(part, ':');
    SplitLength(part, ':');
    CountZero(part, ':');
    var valueStr := Trim(pieces[0]);
    var color := if |pieces| > 1 then Some(Trim(pieces[1])) else None;
    RangeData(if valueStr == "*" then Wildcard else Bound(toNumber(valueStr)), color)
  }

  lemma {:induction false} CountZero(s: string, c: char)
    ensures Count(s, c) == 0 <==> c !in s
    decreases |s|
  {
    if |s| > 0 {
      CountZero(s[1..], c);
      assert s == [s[0]] + s[1..];
    }
  }

  /** A part written as `threshold:colour` parses to the trimmed threshold and colour. */
  lemma ParseRangeOf(valueStr: string, color: string, toNumber: string -> Option<real>)
    requires ':' !in valueStr && ':' !in color
    ensures ParseRange(valueStr + ":" + color, toNumber) ==
      RangeData(if Trim(valueStr) == "*" then Wildcard else Bound(toNumber(Trim(valueStr))), Some(Trim(color)))
  {
    assert valueStr + ":" + color == valueStr + [':'] + color;
    SplitPrefix(valueStr, ':', color);
    SplitNoSep(color, ':');
  }

  /** The constructor's `spec.split(";").map(...)`: one range per part, in order. */
  function ParseSpec(spec: string, toNumber: string -> Option<real>): (ranges: seq<RangeData>)
    ensures |ranges| == |Split(spec, ';')| == Count(spec, ';') + 1
    ensures forall i :: 0 <= i < |ranges| ==> ranges[i] == ParseRange(Split(spec, ';')[i], toNumber)
  {
    SplitLength(spec, ';');
    var parts := Split(spec, ';');
    seq(|parts|, i requires 0 <= i < |parts| => ParseRange(parts[i], toNumber))
  }

  /** A spec assembled from `;`-free parts parses to exactly those parts' ranges. */
  lemma ParseSpecOf(parts: seq<string>, toNumber: string -> Option<real>)
    requires |parts| >= 1
    requires forall i :: 0 <= i < |parts| ==> ';' !in parts[i]
    ensures ParseSpec(Join(parts, ';'), toNumber) == seq(|parts|, i requires 0 <= i < |parts| => ParseRange(parts[i], toNumber))
  {
    SplitJoin(parts, ';');
  }

  /** `range.value === null || val < range.value`; a NaN threshold never matches. */
  predicate Matches(r: RangeData, v: real)
  {
    r.value.Wildcard? || (r.value.limit.Some? && v < r.value.limit.value)
  }

  /** Index of the first range the value falls into, `|ranges|` when there is none. */
  function FirstMatch(ranges: seq<RangeData>, v: real): (k: nat)
    ensures k <= |ranges|
    ensures forall j :: 0 <= j < k ==> !Matches(ranges[j], v)
    ensures k < |ranges| ==> Matches(ranges[k], v)
    decreases |ranges|
  {
    if |ranges| == 0 then 0
    else if Matches(ranges[0], v) then 0
    else 1 + FirstMatch(ranges[1..], v)
  }

  /** `theme.namedColors[color] ?? color`; an undefined colour is looked up under the key "undefined". */
  function ResolveColor(color: Option<string>, namedColors: map<string, string>): (r: Option<string>)
    ensures color.Some? && color.value in namedColors ==> r == Some(namedColors[color.value])
    ensures color.Some? && color.value !in namedColors ==> r == color
    ensures color.None? ==> r == if "undefined" in namedColors then Some(namedColors["undefined"]) else None
  {
    var key := match color case Some(c) => c case None => "undefined";
    if key in namedColors then Some(namedColors[key]) else color
  }

  class NumberRangeValueClassifier {
    var ranges: seq<RangeData>
    const toNumber: string -> Option<real>

    constructor (spec: string, toNumber: string -> Option<real>)
      ensures this.toNumber == toNumber
      ensures ranges == ParseSpec(spec, toNumber)
    {
      this.toNumber := toNumber;
      ranges := ParseSpec(spec, toNumber);
    }

    /** `classify(value)`: "" for a value that is not a number or falls into no range, else
        the first matching range's resolved colour. It changes nothing. */
    method Classify(value: Option<string>, namedColors: map<string, string>) returns (color: Option<string>)
      ensures value.None? || toNumber(value.value).None? ==> color == Some("")
      ensures value.Some? && toNumber(value.value).Some? ==>
        var k := FirstMatch(ranges, toNumber(value.value).value);
        color == (if k == |ranges| then Some("") else ResolveColor(ranges[k].color, namedColors))
    {
      if value.None? || toNumber(value.value).None? {
        return Some("");
      }
      var v := toNumber(value.value).value;
      for i := 0 to |ranges|
        invariant forall j :: 0 <= j < i ==> !Matches(ranges[j], v)
      {
        var range := ranges[i];
        if range.value.Wildcard? || (range.value.limit.Some? && v < range.value.limit.value) {
          return ResolveColor(range.color, namedColors);
        }
      }
      return Some("");
    }
  }

  /** A value equal to a threshold falls through to the next range. */
  lemma EqualValueFallsThrough(t: real, c1: Option<string>, c2: Option<string>, namedColors: map<string, string>)
    ensures FirstMatch([RangeData(Bound(Some(t)), c1), RangeData(Wildcard, c2)], t) == 1
  {
    var rs := [RangeData(Bound(Some(t)), c1), RangeData(Wildcard, c2)];
    assert !Matches(rs[0], t) && Matches(rs[1], t);
  }
}
