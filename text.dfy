/**
 * The JavaScript string operations the locator relies on: the white-space class
 * (what the regular expression `\s` matches and what `trim` removes), `trim`,
 * deleting every white-space character, replacing the first occurrence of a
 * character, and `Array.prototype.filter`/`join` over strings.
 */
module Text {

  /** ECMAScript WhiteSpace and LineTerminator code points (the class `\s`, and what `trim` strips). */
  predicate IsSpace(c: char) {
    if c < '\U{A0}' then c == ' ' || '\t' <= c <= '\r'  // tab, line feed, vertical tab, form feed, carriage return
    else
      || c == '\U{A0}' || c == '\U{1680}' || ('\U{2000}' <= c <= '\U{200A}')
      || c == '\U{2028}' || c == '\U{2029}' || c == '\U{202F}' || c == '\U{205F}'
      || c == '\U{3000}' || c == '\U{FEFF}'
  }

  /** Nothing but white space: what `s.trim().length === 0` tests (see `TrimInfix`). */
  predicate AllSpace(s: string) {
    forall k :: 0 <= k < |s| ==> IsSpace(s[k])
  }

  predicate NoSpace(s: string) {
    forall k :: 0 <= k < |s| ==> !IsSpace(s[k])
  }

  /** Number of occurrences of `c` in `s`. */
  function Count(c: char, s: string): nat {
    if s == [] then 0 else (if s[0] == c then 1 else 0) + Count(c, s[1..])
  }

  lemma {:induction false} CountAppend(c: char, a: string, b: string)
    ensures Count(c, a + b) == Count(c, a) + Count(c, b)
  {
    if a == [] {
      assert a + b == b;
    } else {
      assert (a + b)[1..] == a[1..] + b;
      CountAppend(c, a[1..], b);
    }
  }

  lemma {:induction false} CountZeroIffAbsent(c: char, s: string)
    ensures Count(c, s) == 0 <==> c !in s
  {
    if s != [] {
      CountZeroIffAbsent(c, s[1..]);
      assert s == [s[0]] + s[1..];
    }
  }

  // ---------------------------------------------------------------- trim

  /** How many white-space characters `s` starts with. */
  function Leading(s: string): (n: nat)
    ensures n <= |s|
    ensures forall k :: 0 <= k < n ==> IsSpace(s[k])
    ensures n < |s| ==> !IsSpace(s[n])
  {
    if s != [] && IsSpace(s[0]) then 1 + Leading(s[1..]) else 0
  }

  /** How many white-space characters `s` ends with. */
  function Trailing(s: string): (n: nat)
    ensures n <= |s|
    ensures forall k :: |s| - n <= k < |s| ==> IsSpace(s[k])
    ensures n < |s| ==> !IsSpace(s[|s| - n - 1])
  {
    if s != [] && IsSpace(s[|s| - 1]) then 1 + Trailing(s[..|s| - 1]) else 0
  }

  /** `String.prototype.trim`: white space removed at both ends. */
  function Trim(s: string): (r: string)
    ensures |r| <= |s|
    ensures r == [] || (!IsSpace(r[0]) && !IsSpace(r[|r| - 1]))
  {
    var t := s[Leading(s)..];
    t[..|t| - Trailing(t)]
  }

  /**
   * What `trim` keeps is the infix of `s` between a white-space prefix and a
   * white-space suffix, and it is empty exactly when `s` is all white space.
   */
  lemma TrimInfix(s: string)
    ensures exists i :: 0 <= i <= i + |Trim(s)| <= |s| && Trim(s) == s[i..i + |Trim(s)|]
                        && AllSpace(s[..i]) && AllSpace(s[i + |Trim(s)|..])
    ensures Trim(s) == [] <==> AllSpace(s)
  {
    var i, r := Leading(s), Trim(s);
    TrimParts(s);
    assert Trim(s) == s[i..i + |r|] && AllSpace(s[..i]) && AllSpace(s[i + |r|..]);
    if r == [] {
      AllSpaceAppend(s[..i], s[i..]);
      assert s == s[..i] + s[i..];
    } else {
      assert r[0] == s[i];
    }
  }

  /** The pieces of `s` around its trim: the leading white space, the trim, the trailing white space. */
  lemma TrimParts(s: string)
    ensures Trim(s) == s[Leading(s)..Leading(s) + |Trim(s)|]
    ensures AllSpace(s[..Leading(s)])
    ensures AllSpace(s[Leading(s) + |Trim(s)|..])
  {
    var i := Leading(s);
    var t := s[i..];
    var n := |t| - Trailing(t);
    assert Trim(s) == t[..n] == s[i..i + n];
    LeadingSpace(s);
    TrailingSpace(t);
    assert s[i + n..] == t[n..];
  }

  lemma LeadingSpace(s: string)
    ensures AllSpace(s[..Leading(s)])
  {
    var p := s[..Leading(s)];
    forall k | 0 <= k < |p| ensures IsSpace(p[k]) {
      assert p[k] == s[k];
    }
  }

  lemma TrailingSpace(t: string)
    ensures AllSpace(t[|t| - Trailing(t)..])
  {
    var n := |t| - Trailing(t);
    var u := t[n..];
    forall k | 0 <= k < |u| ensures IsSpace(u[k]) {
      assert u[k] == t[n + k];
    }
  }

  lemma AllSpaceAppend(a: string, b: string)
    requires AllSpace(a) && AllSpace(b)
    ensures AllSpace(a + b)
  {
    forall k | 0 <= k < |a + b| ensures IsSpace((a + b)[k]) {
      if k < |a| {
        assert (a + b)[k] == a[k];
      } else {
        assert (a + b)[k] == b[k - |a|];
      }
    }
  }

  /** A string that neither starts nor ends with white space is its own trim. */
  lemma TrimFixes(s: string)
    requires s == [] || (!IsSpace(s[0]) && !IsSpace(s[|s| - 1]))
    ensures Trim(s) == s
  {
  }

  // ------------------------------------------------- replace(/\s+/g, "")

  /** `s.replace(/\s+/g, "")`: every white-space character deleted. */
  function StripSpaces(s: string): (r: string)
    ensures NoSpace(r)
    ensures |r| <= |s|
  {
    if s == [] then []
    else if IsSpace(s[0]) then StripSpaces(s[1..])
    else [s[0]] + StripSpaces(s[1..])
  }

  /** Deleting white space distributes over concatenation, so the remaining characters keep their order. */
  lemma {:induction false} StripSpacesAppend(a: string, b: string)
    ensures StripSpaces(a + b) == StripSpaces(a) + StripSpaces(b)
  {
    if a == [] {
      assert a + b == b;
    } else {
      assert (a + b)[0] == a[0] && (a + b)[1..] == a[1..] + b;
      StripSpacesAppend(a[1..], b);
    }
  }

  /** A string without white space is left as it is. */
  lemma {:induction false} StripSpacesFixes(s: string)
    requires NoSpace(s)
    ensures StripSpaces(s) == s
  {
    if s != [] {
      StripSpacesFixes(s[1..]);
    }
  }

  /** Every character other than white space survives, as often as it occurred. */
  lemma {:induction false} StripSpacesCount(c: char, s: string)
    ensures Count(c, StripSpaces(s)) == if IsSpace(c) then 0 else Count(c, s)
  {
    if s != [] {
      StripSpacesCount(c, s[1..]);
      if !IsSpace(s[0]) {
        assert ([s[0]] + StripSpaces(s[1..]))[1..] == StripSpaces(s[1..]);
      }
    }
  }

  // ------------------------------------------------------ replace(",", ".")

  /** Position of the first `c` in `s`, or `|s|` when there is none. */
  function IndexOf(s: string, c: char): (i: nat)
    ensures i <= |s|
    ensures i < |s| ==> s[i] == c
    ensures c !in s[..i]
    ensures i == |s| <==> c !in s
  {
    if s == [] then 0
    else if s[0] == c then 0
    else
      assert s[..1 + IndexOf(s[1..], c)] == [s[0]] + s[1..][..IndexOf(s[1..], c)];
      1 + IndexOf(s[1..], c)
  }

  /** `s.replace(from, to)` with a one-character string pattern: only the FIRST occurrence is replaced. */
  function ReplaceFirst(s: string, from: char, to: char): (r: string)
    ensures |r| == |s|
    ensures from !in s ==> r == s
    ensures from in s ==> r == s[IndexOf(s, from) := to]
  {
    var i := IndexOf(s, from);
    if i < |s| then s[i := to] else s
  }

  /** Replacing the first `from` removes exactly one of them when there is one, and none otherwise. */
  lemma ReplaceFirstCount(s: string, from: char, to: char)
    requires from != to
    ensures Count(from, ReplaceFirst(s, from, to)) == if from in s then Count(from, s) - 1 else 0
    ensures Count(to, ReplaceFirst(s, from, to)) == Count(to, s) + (if from in s then 1 else 0)
  {
    CountZeroIffAbsent(from, s);
    var i := IndexOf(s, from);
    if i < |s| {
      var r := s[i := to];
      assert s == s[..i] + [s[i]] + s[i + 1..];
      assert r == s[..i] + [to] + s[i + 1..];
      CountAppend(from, s[..i] + [s[i]], s[i + 1..]);
      CountAppend(from, s[..i], [s[i]]);
      CountAppend(from, s[..i] + [to], s[i + 1..]);
      CountAppend(from, s[..i], [to]);
      CountAppend(to, s[..i] + [s[i]], s[i + 1..]);
      CountAppend(to, s[..i], [s[i]]);
      CountAppend(to, s[..i] + [to], s[i + 1..]);
      CountAppend(to, s[..i], [to]);
      assert Count(from, [to]) == 0 && Count(from, [s[i]]) == 1;
      assert Count(to, [to]) == 1 && Count(to, [s[i]]) == 0;
    }
  }

  // ------------------------------------------------ filter(...) and join(...)

  /** `xs.filter(Boolean)` on strings: the non-empty ones, in order. */
  function NonEmpty(xs: seq<string>): (r: seq<string>)
    ensures forall k :: 0 <= k < |r| ==> r[k] != []
    ensures forall x :: x in r <==> x in xs && x != []
    ensures |r| <= |xs|
  {
    if xs == [] then []
    else if xs[0] == [] then NonEmpty(xs[1..])
    else [xs[0]] + NonEmpty(xs[1..])
  }

  /** `xs.filter(s => s.trim().length > 0)`: the strings that are not all white space, in order. */
  function NonBlank(xs: seq<string>): (r: seq<string>)
    ensures forall k :: 0 <= k < |r| ==> !AllSpace(r[k])
    ensures forall x :: x in r <==> x in xs && !AllSpace(x)
    ensures |r| <= |xs|
  {
    if xs == [] then []
    else if AllSpace(xs[0]) then NonBlank(xs[1..])
    else [xs[0]] + NonBlank(xs[1..])
  }

  /**
   * `xs.join(sep)`: the elements with `sep` between neighbours. Nothing joins to
   * "", one element to itself, and the result starts with the first element
   * followed by the separator.
   */
  function Join(xs: seq<string>, sep: string): (r: string)
    ensures xs == [] ==> r == []
    ensures |xs| == 1 ==> r == xs[0]
    ensures |xs| >= 2 ==> xs[0] + sep <= r
  {
    if xs == [] then []
    else if |xs| == 1 then xs[0]
    else xs[0] + sep + Join(xs[1..], sep)
  }
}
