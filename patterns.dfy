/** The few regular-expression shapes the processors use, as explicit
    character-level matchers: a matcher gives the length of the match at the
    start of a text, and `Search` is Python's `re.search` (leftmost start). */
module Patterns {
  import opened Text

  /** Length of the leading run of characters satisfying `p` (a greedy `[...]*`). */
  function Run(t: string, p: char -> bool): (n: nat)
    ensures n <= |t|
    ensures forall i :: 0 <= i < n ==> p(t[i])
    ensures n < |t| ==> !p(t[n])
  {
    if t != [] && p(t[0]) then 1 + Run(t[1..], p) else 0
  }

  /** The length of a match anchored at the start of the text, if any. */
  type Matcher = string -> Option<nat>

  /** A matcher whose matches stay inside the text. */
  ghost predicate Bounded(m: Matcher) {
    forall t :: m(t).Some? ==> m(t).value <= |t|
  }

  /** The leftmost position from `i` on where `m` matches, with the length. */
  function SearchFrom(s: string, m: Matcher, i: nat): (r: Option<(nat, nat)>)
    requires i <= |s| + 1
    ensures r.Some? ==> i <= r.value.0 <= |s| && r.value.0 + r.value.1 <= |s|
                        && m(s[r.value.0..]) == Some(r.value.1)
    ensures r.Some? ==> forall j :: i <= j < r.value.0 ==> m(s[j..]).None? || m(s[j..]).value > |s| - j
    ensures r.None? ==> forall j :: i <= j <= |s| ==> m(s[j..]).None? || m(s[j..]).value > |s| - j
    decreases |s| + 1 - i
  {
    if i > |s| then None
    else
      match m(s[i..])
      case Some(n) => if n <= |s| - i then Some((i, n)) else SearchFrom(s, m, i + 1)
      case None => SearchFrom(s, m, i + 1)
  }

  /** `re.search(pattern, s).group(0)`, or None when there is no match. */
  function Search(s: string, m: Matcher): (r: Option<string>)
    ensures r.Some? ==> exists i :: 0 <= i <= |s| && i + |r.value| <= |s| && s[i..i + |r.value|] == r.value
                                    && m(s[i..]) == Some(|r.value|)
  {
    match SearchFrom(s, m, 0)
    case None => None
    case Some((i, n)) => Some(s[i..i + n])
  }

  /** With a bounded matcher, `Search` misses only when no position matches. */
  lemma SearchNone(s: string, m: Matcher)
    requires Bounded(m)
    ensures Search(s, m).None? <==> forall j :: 0 <= j <= |s| ==> m(s[j..]).None?
  {
    if Search(s, m).None? {
      forall j | 0 <= j <= |s| ensures m(s[j..]).None? {
        assert |s[j..]| == |s| - j;
      }
    }
  }

  /** `s.startswith(p)`, compared one character at a time. */
  predicate HasPrefix(s: string, p: string)
    ensures HasPrefix(s, p) ==> |p| <= |s|
    decreases |p|
  {
    p == [] || (s != [] && s[0] == p[0] && HasPrefix(s[1..], p[1..]))
  }

  lemma {:induction false} HasPrefixIff(s: string, p: string)
    ensures HasPrefix(s, p) <==> StartsWith(s, p)
    decreases |p|
  {
    if p != [] && s != [] {
      HasPrefixIff(s[1..], p[1..]);
      if StartsWith(s, p) {
        assert s[1..][..|p| - 1] == s[..|p|][1..];
      }
      if HasPrefix(s, p) {
        assert s[..|p|] == [s[0]] + s[1..][..|p| - 1];
      }
    }
  }

  /** A prefix under IGNORECASE: characters are compared after case folding. */
  predicate FoldedPrefix(s: string, w: string)
    ensures FoldedPrefix(s, w) ==> |w| <= |s|
    decreases |w|
  {
    w == [] || (s != [] && LowerChar(s[0]) == LowerChar(w[0]) && FoldedPrefix(s[1..], w[1..]))
  }

  /** `sub in s`, decided by the first occurrence. */
  predicate Occurs(s: string, sub: string)
    requires |sub| > 0
  {
    Find(s, sub).Some?
  }

  lemma OccursIff(s: string, sub: string)
    requires |sub| > 0
    ensures Occurs(s, sub) <==> Contains(s, sub)
  {
    if Contains(s, sub) {
      var i :| 0 <= i <= |s| - |sub| && IsAt(s, i, sub);
    }
  }

  /** `\s+` followed by `[p]+` at offset `a`: the end of the match. */
  function SpacedRun(t: string, a: nat, p: char -> bool): (r: Option<nat>)
    requires a <= |t|
    ensures r.Some? ==> a < r.value <= |t|
  {
    var w := LeadCount(t[a..]);
    if w == 0 then None
    else
      var d := Run(t[a + w..], p);
      if d == 0 then None else Some(a + w + d)
  }

  /** A literal keyword followed by `\s+[p]+`. */
  function KeywordRun(t: string, kw: string, p: char -> bool): (r: Option<nat>)
    ensures r.Some? ==> |kw| < r.value <= |t| && StartsWith(t, kw)
  {
    if StartsWith(t, kw) then SpacedRun(t, |kw|, p) else None
  }

  /** `(kw1|kw2|...)\s+[p]+`: alternatives are tried in order. */
  function AltRun(t: string, kws: seq<string>, p: char -> bool): (r: Option<nat>)
    ensures r.Some? ==> r.value <= |t| && exists k :: 0 <= k < |kws| && StartsWith(t, kws[k])
  {
    if kws == [] then None
    else
      match KeywordRun(t, kws[0], p)
      case Some(n) => Some(n)
      case None =>
        var r := AltRun(t, kws[1..], p);
        if r.Some? then
          var k :| 0 <= k < |kws[1..]| && StartsWith(t, kws[1..][k]);
          assert kws[k + 1] == kws[1..][k];
          r
        else r
  }

  /** `re.match(r'^\d+(\.\d+){parts-1}', s)` succeeds. */
  predicate Dotted(s: string, parts: nat) {
    var d := Run(s, IsDigit);
    parts >= 1 && d > 0 && (parts == 1 || (d < |s| && s[d] == '.' && Dotted(s[d + 1..], parts - 1)))
  }

  /** A longer numbering is also a shorter one: `2.1.1` matches `^\d+\.\d+`. */
  lemma {:induction false} DottedFewer(s: string, parts: nat)
    requires parts >= 2 && Dotted(s, parts)
    ensures Dotted(s, parts - 1)
  {
    if parts > 2 {
      var d := Run(s, IsDigit);
      DottedFewer(s[d + 1..], parts - 1);
    }
  }

  /** `2.1.1 А` has three numbering parts, `2.1 А` two and not three. */
  lemma DottedExample()
    ensures Dotted("2.1.1 А", 3) && !Dotted("2.1 А", 3) && Dotted("2.1 А", 2)
  {
    assert Run("2.1.1 А", IsDigit) == 1;
    assert "2.1.1 А"[2..] == "1.1 А";
    assert Run("1.1 А", IsDigit) == 1;
    assert "1.1 А"[2..] == "1 А";
    assert Run("1 А", IsDigit) == 1;
    assert Run("2.1 А", IsDigit) == 1;
    assert "2.1 А"[2..] == "1 А";
    assert "1 А"[1] == ' ';
  }
}
