/** String operations of the JavaScript runtime that the client relies on:
    `String.prototype.includes`, an ordered first-match over substring
    rules, `String.prototype.trim`, and the decimal rendering of
    `BigNumber.toString()`. */
module Text {
  import opened Chain

  /* ---------- includes ---------- */

  /** `p` occurs in `s` at position `i`, compared from character `k` on. */
  predicate MatchesFrom(s: string, p: string, i: nat, k: nat)
    requires i + |p| <= |s| && k <= |p|
    decreases |p| - k
  {
    k == |p| || (s[i + k] == p[k] && MatchesFrom(s, p, i, k + 1))
  }

  /** `p` occurs in `s` at some position `i` or later. */
  predicate OccursFrom(s: string, p: string, i: nat)
    requires i <= |s|
    decreases |s| - i
  {
    i + |p| <= |s| && (MatchesFrom(s, p, i, 0) || OccursFrom(s, p, i + 1))
  }

  /** `s.includes(p)`: a left-to-right scan of the start positions. */
  predicate Contains(s: string, p: string) {
    OccursFrom(s, p, 0)
  }

  lemma {:induction false} MatchesFromIff(s: string, p: string, i: nat, k: nat)
    requires i + |p| <= |s| && k <= |p|
    ensures MatchesFrom(s, p, i, k) <==> s[i + k..i + |p|] == p[k..]
    decreases |p| - k
  {
    if k < |p| {
      MatchesFromIff(s, p, i, k + 1);
      assert s[i + k..i + |p|] == [s[i + k]] + s[i + k + 1..i + |p|];
      assert p[k..] == [p[k]] + p[k + 1..];
    }
  }

  /** `p` occurs in `s` starting exactly at position `j`. */
  predicate MatchAt(s: string, p: string, j: nat) {
    j + |p| <= |s| && s[j..j + |p|] == p
  }

  lemma {:induction false} OccursFromIff(s: string, p: string, i: nat)
    requires i <= |s|
    ensures OccursFrom(s, p, i) <==> exists j :: i <= j && MatchAt(s, p, j)
    decreases |s| - i
  {
    if i + |p| <= |s| {
      MatchesFromIff(s, p, i, 0);
      assert p[0..] == p;
      assert MatchesFrom(s, p, i, 0) <==> MatchAt(s, p, i);
      if i < |s| {
        OccursFromIff(s, p, i + 1);
        if j :| i <= j && MatchAt(s, p, j) {
          if j > i {
            assert OccursFrom(s, p, i + 1);
          }
        }
      } else {
        assert MatchAt(s, p, i);
      }
    }
  }

  /** The scan agrees with the plain meaning of "p is a substring of s". */
  lemma ContainsIff(s: string, p: string)
    ensures Contains(s, p) <==> exists j :: 0 <= j && MatchAt(s, p, j)
  {
    OccursFromIff(s, p, 0);
  }

  /** Any text with `p` inside it contains `p`. */
  lemma ContainsInfix(a: string, p: string, b: string)
    ensures Contains(a + p + b, p)
  {
    var s := a + p + b;
    assert s[|a|..|a| + |p|] == p;
    assert MatchAt(s, p, |a|);
    ContainsIff(s, p);
  }

  /** Every text contains itself. */
  lemma ContainsSelf(p: string)
    ensures Contains(p, p)
  {
    ContainsInfix([], p, []);
    assert [] + p + [] == p;
  }

  /** Text too short to hold `p` does not contain it. */
  lemma ShorterNotContains(s: string, p: string)
    requires |s| < |p|
    ensures !Contains(s, p)
  {
    ContainsIff(s, p);
  }

  /** `p` is not in `s` when a match at the start fails at position `k`
      and no later start position holds `p`'s first character. */
  lemma NotContainsByFirst(s: string, p: string, k: nat)
    requires 0 < |p| && k < |p|
    requires |p| <= |s| ==> s[k] != p[k]
    requires forall j :: 0 < j && j + |p| <= |s| ==> s[j] != p[0]
    ensures !Contains(s, p)
  {
    forall j | 0 <= j
      ensures !MatchAt(s, p, j)
    {
      if j + |p| <= |s| {
        if j == 0 {
          assert s[j..j + |p|][k] == s[k];
        } else {
          assert s[j..j + |p|][0] == s[j];
        }
      }
    }
    ContainsIff(s, p);
  }

  /* ---------- ordered substring rules ---------- */

  /** One `if (message.includes(pattern)) return reply` line of a chain. */
  datatype Rule = Rule(pattern: string, reply: string)

  /** Index of the first rule whose pattern the message contains, or
      `|rules|` when none matches. */
  function FirstMatch(message: string, rules: seq<Rule>): (k: nat)
    ensures k <= |rules|
    ensures forall j :: 0 <= j < k ==> !Contains(message, rules[j].pattern)
    ensures k < |rules| ==> Contains(message, rules[k].pattern)
    decreases |rules|
  {
    if rules == [] then 0
    else if Contains(message, rules[0].pattern) then 0
    else 1 + FirstMatch(message, rules[1..])
  }

  /** The reply of the first matching rule, else the fallback. */
  function Classify(message: string, rules: seq<Rule>, fallback: string): (r: string)
  {
    var k := FirstMatch(message, rules);
    if k < |rules| then rules[k].reply else fallback
  }

  /** First match wins: the reply is that of rule `i` exactly when the
      message contains rule `i`'s pattern and none before it. */
  lemma ClassifyPicksFirst(message: string, rules: seq<Rule>, fallback: string, i: nat)
    requires i < |rules|
    requires Contains(message, rules[i].pattern)
    requires forall j :: 0 <= j < i ==> !Contains(message, rules[j].pattern)
    ensures Classify(message, rules, fallback) == rules[i].reply
  {
    var k := FirstMatch(message, rules);
    assert k <= i;
    assert !(k < i);
  }

  /** With no matching pattern the fallback is returned. */
  lemma ClassifyFallback(message: string, rules: seq<Rule>, fallback: string)
    requires forall j :: 0 <= j < |rules| ==> !Contains(message, rules[j].pattern)
    ensures Classify(message, rules, fallback) == fallback
  {
    var k := FirstMatch(message, rules);
    assert !(k < |rules|);
  }

  /* ---------- trim ---------- */

  /** The characters `String.prototype.trim` removes: the ECMAScript
      WhiteSpace (tab, vertical tab, form feed, space, no-break space,
      byte order mark and the Unicode Zs category) and LineTerminator
      (line feed, carriage return, line and paragraph separator) sets. */
  predicate IsJsSpace(c: char) {
    c in {'\t', '\n', '\U{B}', '\U{C}', '\r', ' ', '\U{A0}', '\U{1680}',
          '\U{2000}', '\U{2001}', '\U{2002}', '\U{2003}', '\U{2004}', '\U{2005}',
          '\U{2006}', '\U{2007}', '\U{2008}', '\U{2009}', '\U{200A}',
          '\U{2028}', '\U{2029}', '\U{202F}', '\U{205F}', '\U{3000}', '\U{FEFF}'}
  }

  predicate AllJsSpace(s: string) {
    forall i :: 0 <= i < |s| ==> IsJsSpace(s[i])
  }

  lemma AllJsSpaceAppend(s: string, c: char)
    requires AllJsSpace(s) && IsJsSpace(c)
    ensures AllJsSpace(s + [c])
  {
    assert forall i :: 0 <= i < |s| ==> (s + [c])[i] == s[i];
  }

  /** Number of white-space characters at the front of `s`. */
  function LeadingSpace(s: string): (n: nat)
    ensures n <= |s|
    ensures AllJsSpace(s[..n])
    ensures n < |s| ==> !IsJsSpace(s[n])
    decreases |s|
  {
    if s == [] || !IsJsSpace(s[0]) then 0
    else
      var n := 1 + LeadingSpace(s[1..]);
      assert forall i :: 1 <= i < n ==> s[..n][i] == s[1..][..n - 1][i - 1];
      n
  }

  /** Number of white-space characters at the back of `s`. */
  function TrailingSpace(s: string): (n: nat)
    ensures n <= |s|
    ensures AllJsSpace(s[|s| - n..])
    ensures n < |s| ==> !IsJsSpace(s[|s| - 1 - n])
    decreases |s|
  {
    if s == [] || !IsJsSpace(s[|s| - 1]) then 0
    else
      var m := TrailingSpace(s[..|s| - 1]);
      assert s[|s| - (m + 1)..] == s[..|s| - 1][|s| - 1 - m..] + [s[|s| - 1]];
      AllJsSpaceAppend(s[..|s| - 1][|s| - 1 - m..], s[|s| - 1]);
      m + 1
  }

  /** `s.trim()`. */
  function Trim(s: string): (r: string)
  {
    var front := s[LeadingSpace(s)..];
    front[..|front| - TrailingSpace(front)]
  }

  /** Trim keeps a contiguous middle part of `s` and removes only
      white space around it; the part kept neither starts nor ends with
      white space. */
  lemma TrimShape(s: string)
    ensures exists a, b :: 0 <= a <= b <= |s| && Trim(s) == s[a..b]
                           && AllJsSpace(s[..a]) && AllJsSpace(s[b..])
    ensures Trim(s) != "" ==> !IsJsSpace(Trim(s)[0]) && !IsJsSpace(Trim(s)[|Trim(s)| - 1])
  {
    var a := LeadingSpace(s);
    var front := s[a..];
    var t := TrailingSpace(front);
    var b := a + (|front| - t);
    assert Trim(s) == s[a..b];
    assert s[b..] == front[|front| - t..];
    if Trim(s) != "" {
      assert Trim(s)[0] == s[a];
      assert Trim(s)[|Trim(s)| - 1] == front[|front| - 1 - t];
    }
  }

  /** `!s.trim()` holds exactly when `s` is empty or all white space. */
  lemma TrimEmptyIff(s: string)
    ensures Trim(s) == "" <==> AllJsSpace(s)
  {
    var a := LeadingSpace(s);
    var front := s[a..];
    if Trim(s) == "" {
      if a < |s| {
        assert false;
      }
      assert s[..a] == s;
    } else {
      assert a < |s|;
      assert !IsJsSpace(s[a]);
    }
  }

  /* ---------- decimal rendering ---------- */

  function DigitChar(d: nat): (c: char)
    requires d < 10
  {
    (48 + d) as char
  }

  predicate IsDigit(c: char) {
    48 <= c as int <= 57
  }

  /** Base-ten digits with no leading zero, as `toString()` writes them. */
  predicate DecimalText(s: string) {
    |s| >= 1 && (forall i :: 0 <= i < |s| ==> IsDigit(s[i])) && (s[0] == '0' ==> s == "0")
  }

  /** `n.toString()` for an unsigned integer: base ten, no sign, no
      leading zero except for "0" itself. */
  function Decimal(n: nat): (r: string)
    ensures |r| >= 1
    ensures forall i :: 0 <= i < |r| ==> IsDigit(r[i])
    ensures r[0] == '0' ==> r == "0"
    decreases n
  {
    if n < 10 then [DigitChar(n)]
    else Decimal(n / 10) + [DigitChar(n % 10)]
  }

  /** The value a string of decimal digits denotes. */
  function DecimalValue(s: string): nat
    requires forall i :: 0 <= i < |s| ==> IsDigit(s[i])
    decreases |s|
  {
    if s == [] then 0
    else
      assert IsDigit(s[|s| - 1]);
      10 * DecimalValue(s[..|s| - 1]) + (s[|s| - 1] as int - 48)
  }

  /** Reading the rendered digits back gives the number again, so the
      rendering loses nothing. */
  lemma {:induction false} DecimalRoundTrip(n: nat)
    ensures DecimalValue(Decimal(n)) == n
    decreases n
  {
    if n >= 10 {
      DecimalRoundTrip(n / 10);
      var r := Decimal(n);
      assert r[..|r| - 1] == Decimal(n / 10);
    }
  }

  /** Distinct numbers render as distinct strings. */
  lemma DecimalInjective(m: nat, n: nat)
    requires Decimal(m) == Decimal(n)
    ensures m == n
  {
    DecimalRoundTrip(m);
    DecimalRoundTrip(n);
  }
}
