/**
 * The JavaScript value and string operations the cards rely on: optional values,
 * truthiness of optional strings, `String.prototype.split` on one character,
 * `trim`, `includes` and `startsWith`.
 */
module JsText {

  datatype Option<+T> = None | Some(value: T)

  /** JavaScript truthiness of a string that may be undefined: `undefined` and `""` are falsy. */
  predicate Truthy(s: Option<string>)
  {
    s.Some? && s.value != ""
  }

  /** `a || b` for a possibly undefined string `a` and a string `b`. */
  function OrElse(a: Option<string>, b: string): (r: string)
    ensures Truthy(a) ==> r == a.value
    ensures !Truthy(a) ==> r == b
  {
    if Truthy(a) then a.value else b
  }

  /** `a ?? b`: only `undefined` (not `""`) falls back. */
  function Coalesce(a: Option<string>, b: string): string
  {
    match a
    case Some(v) => v
    case None => b
  }

  // ---------------------------------------------------------------------------
  // split on one character

  /** `s.split(sep)` for a one-character separator. */
  function Split(s: string, sep: char): (parts: seq<string>)
    ensures |parts| >= 1
    ensures forall i :: 0 <= i < |parts| ==> sep !in parts[i]
    decreases |s|
  {
    if |s| == 0 then [""]
    else
      var rest := Split(s[1..], sep);
      if s[0] == sep then [""] + rest
      else [[s[0]] + rest[0]] + rest[1..]
  }

  /** `parts.join(sep)`: the inverse of Split. */
  function Join(parts: seq<string>, sep: char): string
    requires |parts| >= 1
    decreases |parts|
  {
    if |parts| == 1 then parts[0] else parts[0] + [sep] + Join(parts[1..], sep)
  }

  /** Number of occurrences of `c` in `s`. */
  function Count(s: string, c: char): nat
    decreases |s|
  {
    if |s| == 0 then 0 else (if s[0] == c then 1 else 0) + Count(s[1..], c)
  }

  lemma {:induction false} JoinConsHead(c: char, parts: seq<string>, sep: char)
    requires |parts| >= 1
    ensures Join([[c] + parts[0]] + parts[1..], sep) == [c] + Join(parts, sep)
  {
    var ps := [[c] + parts[0]] + parts[1..];
    if |parts| > 1 {
      assert ps[1..] == parts[1..];
    }
  }

  /** Joining the pieces of a split gives back the original string. */
  lemma {:induction false} JoinSplit(s: string, sep: char)
    ensures Join(Split(s, sep), sep) == s
    decreases |s|
  {
    if |s| > 0 {
      var rest := Split(s[1..], sep);
      JoinSplit(s[1..], sep);
      if s[0] == sep {
        assert ([""] + rest)[1..] == rest;
        assert s == [sep] + s[1..];
      } else {
        JoinConsHead(s[0], rest, sep);
        assert s == [s[0]] + s[1..];
      }
    }
  }

  /** A string without the separator splits into itself alone. */
  lemma {:induction false} SplitNoSep(d: string, sep: char)
    requires sep !in d
    ensures Split(d, sep) == [d]
    decreases |d|
  {
    if |d| > 0 {
      SplitNoSep(d[1..], sep);
      assert d == [d[0]] + d[1..];
    }
  }

  /** Splitting `d + sep + rest` peels `d` off the front when `d` has no separator. */
  lemma {:induction false} SplitPrefix(d: string, sep: char, rest: string)
    requires sep !in d
    ensures Split(d + [sep] + rest, sep) == [d] + Split(rest, sep)
    decreases |d|
  {
    var s := d + [sep] + rest;
    if |d| == 0 {
      assert s[1..] == rest;
    } else {
      assert s[1..] == d[1..] + [sep] + rest;
      SplitPrefix(d[1..], sep, rest);
      assert [d[0]] + d[1..] == d;
    }
  }

  /** Splitting a join gives back the parts when none of them holds the separator. */
  lemma {:induction false} SplitJoin(parts: seq<string>, sep: char)
    requires |parts| >= 1
    requires forall i :: 0 <= i < |parts| ==> sep !in parts[i]
    ensures Split(Join(parts, sep), sep) == parts
    decreases |parts|
  {
    if |parts| == 1 {
      SplitNoSep(parts[0], sep);
    } else {
      SplitJoin(parts[1..], sep);
      SplitPrefix(parts[0], sep, Join(parts[1..], sep));
      assert [parts[0]] + parts[1..] == parts;
    }
  }

  /** There is one more piece than there are separators. */
  lemma {:induction false} SplitLength(s: string, sep: char)
    ensures |Split(s, sep)| == Count(s, sep) + 1
    decreases |s|
  {
    if |s| > 0 {
      SplitLength(s[1..], sep);
    }
  }

  /** A split is the text before the first separator followed by the split of the text
      after it; without a separator it is the whole string alone. */
  lemma SplitAtFirst(s: string, sep: char)
    ensures sep !in s ==> Split(s, sep) == [s]
    ensures sep in s ==> (|Head(s, sep)| < |s| &&
      Split(s, sep) == [Head(s, sep)] + Split(s[|Head(s, sep)| + 1..], sep))
  {
    var h := Head(s, sep);
    if sep in s {
      SplitNoSep(h, sep);
      assert |h| < |s|;
      assert s == h + [sep] + s[|h| + 1..];
      SplitPrefix(h, sep, s[|h| + 1..]);
    } else {
      SplitNoSep(s, sep);
    }
  }

  /** The first piece of a split, e.g. the domain of an entity id: the text before the first separator. */
  function Head(s: string, sep: char): (h: string)
    ensures h <= s && sep !in h
    ensures |h| < |s| ==> s[|h|] == sep
  {
    SplitHeadIsPrefix(s, sep);
    Split(s, sep)[0]
  }

  lemma {:induction false} SplitHeadIsPrefix(s: string, sep: char)
    ensures Split(s, sep)[0] <= s
    ensures |Split(s, sep)[0]| < |s| ==> s[|Split(s, sep)[0]|] == sep
    decreases |s|
  {
    if |s| > 0 && s[0] != sep {
      SplitHeadIsPrefix(s[1..], sep);
    }
  }

  // ---------------------------------------------------------------------------
  // trim

  /** ECMAScript WhiteSpace and LineTerminator code points, the ones `trim` removes. */
  predicate IsSpace(c: char)
  {
    var n := c as int;
    n == 0x09 || n == 0x0A || n == 0x0B || n == 0x0C || n == 0x0D || n == 0x20 ||
    n == 0xA0 || n == 0x1680 || (0x2000 <= n <= 0x200A) || n == 0x2028 || n == 0x2029 ||
    n == 0x202F || n == 0x205F || n == 0x3000 || n == 0xFEFF
  }

  predicate AllSpace(s: string)
  {
    forall i :: 0 <= i < |s| ==> IsSpace(s[i])
  }

  /** Number of white-space characters at the front of `s`. */
  function LeadingSpace(s: string): (k: nat)
    ensures k <= |s| && AllSpace(s[..k])
    ensures k < |s| ==> !IsSpace(s[k])
    decreases |s|
  {
    if |s| > 0 && IsSpace(s[0]) then
      var k := 1 + LeadingSpace(s[1..]);
      SpaceCons(s, k);
      k
    else 0
  }

  /** A space followed by `k - 1` spaces of the rest is `k` spaces. */
  lemma SpaceCons(s: string, k: nat)
    requires 0 < k <= |s| && IsSpace(s[0]) && AllSpace(s[1..][..k - 1])
    ensures AllSpace(s[..k])
  {
    assert forall i :: 1 <= i < k ==> s[i] == s[1..][..k - 1][i - 1];
  }

  /** Number of white-space characters at the end of `s`. */
  function TrailingSpace(s: string): (k: nat)
    ensures k <= |s| && AllSpace(s[|s| - k..])
    ensures k < |s| ==> !IsSpace(s[|s| - k - 1])
    decreases |s|
  {
    if |s| > 0 && IsSpace(s[|s| - 1]) then
      var k := 1 + TrailingSpace(s[..|s| - 1]);
      SpaceSnoc(s, k);
      k
    else 0
  }

  /** `k - 1` trailing spaces of all but the last character, then a space, are `k` spaces. */
  lemma SpaceSnoc(s: string, k: nat)
    requires 0 < k <= |s| && IsSpace(s[|s| - 1]) && AllSpace(s[..|s| - 1][|s| - k..])
    ensures AllSpace(s[|s| - k..])
    ensures k < |s| ==> s[..|s| - 1][|s| - 1 - (k - 1) - 1] == s[|s| - k - 1]
  {
    assert forall i :: |s| - k <= i < |s| - 1 ==> s[i] == s[..|s| - 1][|s| - k..][i - (|s| - k)];
  }

  /** `s.trim()`: `s` is white space, then the result, then white space, and the result
      neither starts nor ends with white space. */
  function Trim(s: string): (r: string)
    ensures exists i :: 0 <= i <= |s| - |r| && s[i..i + |r|] == r && AllSpace(s[..i]) && AllSpace(s[i + |r|..])
    ensures r == [] || (!IsSpace(r[0]) && !IsSpace(r[|r| - 1]))
  {
    var a := LeadingSpace(s);
    var r := s[a..][..|s[a..]| - TrailingSpace(s[a..])];
    TrimParts(s, a, r);
    r
  }

  /** The pieces `Trim` cuts `s` into: leading space, the result, trailing space. */
  lemma TrimParts(s: string, a: nat, r: string)
    requires a == LeadingSpace(s)
    requires r == s[a..][..|s[a..]| - TrailingSpace(s[a..])]
    ensures 0 <= a <= |s| - |r| && s[a..a + |r|] == r && AllSpace(s[..a]) && AllSpace(s[a + |r|..])
    ensures r == [] || (!IsSpace(r[0]) && !IsSpace(r[|r| - 1]))
  {
    var t := s[a..];
    var b := TrailingSpace(t);
    assert |r| == |s| - a - b;
    assert r == s[a..|s| - b];
    assert t[|t| - b..] == s[|s| - b..];
    if r != [] {
      assert r[0] == s[a];
      assert r[|r| - 1] == t[|t| - b - 1];
    }
  }

  // ---------------------------------------------------------------------------
  // includes / startsWith

  /** `s.includes(p)`, scanning from the left. */
  function Includes(s: string, p: string): bool
    decreases |s|
  {
    p <= s || (|s| > 0 && Includes(s[1..], p))
  }

  /** `p` occurs in `s` starting at position `i`. */
  predicate OccursAt(s: string, p: string, i: int)
  {
    0 <= i <= |s| - |p| && s[i..i + |p|] == p
  }

  /** Includes holds exactly when `p` occurs at some position of `s`. */
  lemma {:induction false} IncludesAt(s: string, p: string)
    ensures Includes(s, p) <==> exists i :: OccursAt(s, p, i)
    decreases |s|
  {
    if p <= s {
      assert OccursAt(s, p, 0);
    } else if |s| > 0 {
      IncludesAt(s[1..], p);
      OccursAtZero(s, p);
      if exists i :: OccursAt(s, p, i) {
        var i :| OccursAt(s, p, i);
        OccursShift(s, p, i);
      }
      if exists j :: OccursAt(s[1..], p, j) {
        var j :| OccursAt(s[1..], p, j);
        OccursShift(s, p, j + 1);
      }
    } else {
      assert forall i :: !OccursAt(s, p, i);
    }
  }

  /** An occurrence at position 0 is a prefix. */
  lemma OccursAtZero(s: string, p: string)
    ensures OccursAt(s, p, 0) <==> p <= s
  {
  }

  /** An occurrence past the first character is an occurrence in the rest of the string. */
  lemma OccursShift(s: string, p: string, i: int)
    requires |s| > 0 && i > 0
    ensures OccursAt(s, p, i) <==> OccursAt(s[1..], p, i - 1)
  {
    if 0 <= i - 1 <= |s| - 1 - |p| {
      var a, b := s[i..i + |p|], s[1..][i - 1..i - 1 + |p|];
      assert |a| == |b|;
      assert forall k :: 0 <= k < |a| ==> a[k] == s[i + k] == b[k];
    }
  }

  /** `s.startsWith(p)`. */
  predicate StartsWith(s: string, p: string)
  {
    p <= s
  }
}
