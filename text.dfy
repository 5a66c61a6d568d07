/** String and sequence helpers with the semantics of the Python built-ins the
    system relies on (str.strip, str.split, str.join, str.replace, slicing with
    negative bounds, re.sub(r'\s+', ' ', ...)). Strings are sequences of
    characters; there is no Unicode normalisation. */
module Text {

  datatype Option<+T> = None | Some(value: T)

  /** `d.get(key, default)` on a field that may be absent. */
  function GetOr<T>(o: Option<T>, default: T): (r: T)
    ensures o.Some? ==> r == o.value
    ensures o.None? ==> r == default
  {
    if o.Some? then o.value else default
  }

  /** A value or the message of the exception raised instead. */
  datatype Result<+T> = Success(value: T) | Failure(error: string)

  /** Python's str.isspace on one character, which is also what `\s` matches. */
  predicate IsSpace(c: char) {
    c == ' ' || c == '\t' || c == '\n' || c == '\r' || c == '\U{0B}' || c == '\U{0C}'
    || ('\U{1C}' <= c <= '\U{1F}') || c == '\U{85}' || c == '\U{A0}' || c == '\U{1680}'
    || ('\U{2000}' <= c <= '\U{200A}') || c == '\U{2028}' || c == '\U{2029}'
    || c == '\U{202F}' || c == '\U{205F}' || c == '\U{3000}'
  }

  /** `\d`, restricted to ASCII digits. */
  predicate IsDigit(c: char) { '0' <= c <= '9' }

  predicate IsAsciiUpper(c: char) { 'A' <= c <= 'Z' }

  /** Upper-case Cyrillic letters `[А-Я]` as a regex range (Ё is outside it). */
  predicate IsCyrillicUpper(c: char) { 'А' <= c <= 'Я' }

  /** `\w`: letters, digits and underscore; letters are the Latin ASCII ones and
      the basic Cyrillic block. */
  predicate IsWordChar(c: char) {
    IsDigit(c) || IsAsciiUpper(c) || ('a' <= c <= 'z') || c == '_' || ('\U{400}' <= c <= '\U{4FF}')
  }

  predicate IsBlank(s: string) { forall i :: 0 <= i < |s| ==> IsSpace(s[i]) }

  /** Case folding used for `str.lower()` and IGNORECASE: ASCII and basic Cyrillic. */
  function LowerChar(c: char): char {
    if 'A' <= c <= 'Z' then (c as int + 32) as char
    else if 'А' <= c <= 'Я' then (c as int + 32) as char
    else if '\U{400}' <= c <= '\U{40F}' then (c as int + 80) as char
    else c
  }

  function Lower(s: string): (r: string)
    ensures |r| == |s|
    ensures forall i :: 0 <= i < |s| ==> r[i] == LowerChar(s[i])
  {
    if s == [] then [] else [LowerChar(s[0])] + Lower(s[1..])
  }

  // ---------------------------------------------------------------- strip

  /** Number of leading whitespace characters. */
  function LeadCount(s: string): (n: nat)
    ensures n <= |s|
    ensures forall i :: 0 <= i < n ==> IsSpace(s[i])
    ensures n < |s| ==> !IsSpace(s[n])
  {
    if s != [] && IsSpace(s[0]) then 1 + LeadCount(s[1..]) else 0
  }

  /** Number of trailing whitespace characters. */
  function TrailCount(s: string): (n: nat)
    ensures n <= |s|
    ensures forall i :: |s| - n <= i < |s| ==> IsSpace(s[i])
    ensures n < |s| ==> !IsSpace(s[|s| - 1 - n])
  {
    if s != [] && IsSpace(s[|s| - 1]) then 1 + TrailCount(s[..|s| - 1]) else 0
  }

  predicate IsStripped(s: string) {
    s == [] || (!IsSpace(s[0]) && !IsSpace(s[|s| - 1]))
  }

  function TrimLeft(s: string): (r: string)
    ensures r == s[LeadCount(s)..]
  {
    s[LeadCount(s)..]
  }

  /** Python's `s.strip()`. */
  function Strip(s: string): (r: string)
    ensures IsStripped(r)
    ensures r == [] <==> IsBlank(s)
    ensures |r| <= |s|
    ensures LeadCount(s) + |r| <= |s| && r == s[LeadCount(s)..LeadCount(s) + |r|]
  {
    var a := LeadCount(s);
    var t := s[a..];
    var r := t[..|t| - TrailCount(t)];
    r
  }

  lemma StripOfStripped(s: string)
    requires IsStripped(s)
    ensures Strip(s) == s
  {
  }

  // ---------------------------------------------------------------- join / find / split

  function Last<T>(s: seq<T>): T
    requires |s| > 0
  {
    s[|s| - 1]
  }

  // Small facts about sequences, stated generically so that each is proved
  // in a context holding nothing else.

  lemma ConcatAssoc<T>(a: seq<T>, b: seq<T>, c: seq<T>)
    ensures (a + b) + c == a + (b + c)
  {
  }

  lemma ButLastSnoc<T>(s: seq<T>)
    requires |s| > 0
    ensures s[..|s| - 1] + [Last(s)] == s
  {
  }

  lemma PrefixSnoc<T>(s: seq<T>, i: nat)
    requires i < |s|
    ensures s[..i + 1] == s[..i] + [s[i]]
  {
  }

  lemma PrefixOfSuffix<T>(s: seq<T>, a: nat, b: nat)
    requires a <= b <= |s|
    ensures s[a..][..b - a] == s[a..b]
  {
  }

  function SumLen(parts: seq<string>): nat {
    if parts == [] then 0 else SumLen(parts[..|parts| - 1]) + |Last(parts)|
  }

  /** Python's `sep.join(parts)`. */
  function Join(sep: string, parts: seq<string>): string {
    if |parts| == 0 then ""
    else if |parts| == 1 then parts[0]
    else parts[0] + sep + Join(sep, parts[1..])
  }

  lemma {:induction false} JoinSnoc(sep: string, parts: seq<string>, x: string)
    ensures Join(sep, parts + [x]) == if parts == [] then x else Join(sep, parts) + sep + x
  {
    if |parts| > 1 {
      JoinSnoc(sep, parts[1..], x);
      assert (parts + [x])[1..] == parts[1..] + [x];
    } else if |parts| == 1 {
      assert (parts + [x])[1..] == [x];
    }
  }

  lemma MulStep(a: nat, n: nat)
    ensures a * (n + 1) == a * n + a
  {
  }

  lemma {:induction false} JoinLength(sep: string, parts: seq<string>)
    ensures |Join(sep, parts)| == SumLen(parts) + (if parts == [] then 0 else |sep| * (|parts| - 1))
  {
    if parts != [] {
      var init := parts[..|parts| - 1];
      assert parts == init + [Last(parts)];
      JoinLength(sep, init);
      JoinSnoc(sep, init, Last(parts));
      assert SumLen(parts) == SumLen(init) + |Last(parts)|;
      if init != [] {
        MulStep(|sep|, |init| - 1);
      }
    }
  }

  predicate IsAt(s: string, i: int, sub: string) {
    0 <= i && i + |sub| <= |s| && s[i..i + |sub|] == sub
  }

  /** `sub in s`. */
  predicate Contains(s: string, sub: string) {
    exists i :: 0 <= i <= |s| - |sub| && IsAt(s, i, sub)
  }

  predicate StartsWith(s: string, prefix: string) {
    |prefix| <= |s| && s[..|prefix|] == prefix
  }

  predicate EndsWith(s: string, suffix: string) {
    |suffix| <= |s| && s[|s| - |suffix|..] == suffix
  }

  lemma StartsWithConcat(x: string, y: string)
    ensures StartsWith(x + y, x)
  {
    assert (x + y)[..|x|] == x;
  }

  lemma EndsWithConcat(x: string, y: string)
    ensures EndsWith(x + y, y)
  {
    assert (x + y)[|x + y| - |y|..] == y;
  }

  lemma EndsWithLast(s: string, suffix: string)
    requires EndsWith(s, suffix) && suffix != []
    ensures s[|s| - 1] == suffix[|suffix| - 1]
  {
    assert s[|s| - |suffix|..][|suffix| - 1] == s[|s| - 1];
  }

  function FindFrom(s: string, sub: string, from: nat): (r: Option<nat>)
    requires |sub| > 0
    ensures r.Some? ==> from <= r.value && IsAt(s, r.value, sub)
    ensures r.Some? ==> forall j :: from <= j < r.value ==> !IsAt(s, j, sub)
    ensures r.None? ==> forall j :: from <= j ==> !IsAt(s, j, sub)
    decreases |s| - from
  {
    if from + |sub| > |s| then None
    else if s[from..from + |sub|] == sub then Some(from)
    else FindFrom(s, sub, from + 1)
  }

  /** The first occurrence of `sub` in `s` (Python's `s.find(sub)`, None for -1). */
  function Find(s: string, sub: string): (r: Option<nat>)
    requires |sub| > 0
    ensures r.Some? ==> IsAt(s, r.value, sub) && forall j :: 0 <= j < r.value ==> !IsAt(s, j, sub)
    ensures r.None? ==> forall j :: !IsAt(s, j, sub)
  {
    FindFrom(s, sub, 0)
  }

  /** Python's `s.split(sep)` for a non-empty separator. */
  function Split(s: string, sep: string): seq<string>
    requires |sep| > 0
    decreases |s|
  {
    match Find(s, sep)
    case None => [s]
    case Some(i) => [s[..i]] + Split(s[i + |sep|..], sep)
  }

  lemma {:induction false} SplitNonEmpty(s: string, sep: string)
    requires |sep| > 0
    ensures |Split(s, sep)| >= 1
  {
  }

  /** Splitting and joining with the same separator gives the text back. */
  lemma {:induction false} JoinSplit(s: string, sep: string)
    requires |sep| > 0
    ensures Join(sep, Split(s, sep)) == s
    decreases |s|
  {
    var f := Find(s, sep);
    if f.Some? {
      var i := f.value;
      var rest := s[i + |sep|..];
      var tail := Split(rest, sep);
      JoinSplit(rest, sep);
      SplitNonEmpty(rest, sep);
      assert Split(s, sep) == [s[..i]] + tail;
      JoinCons(sep, s[..i], tail);
      assert s == s[..i] + sep + rest;
    }
  }

  lemma JoinCons(sep: string, head: string, tail: seq<string>)
    requires |tail| >= 1
    ensures Join(sep, [head] + tail) == head + sep + Join(sep, tail)
  {
    assert ([head] + tail)[1..] == tail;
  }

  /** No part of a split contains the separator. */
  lemma {:induction false} SplitPartsFree(s: string, sep: string)
    requires |sep| > 0
    ensures forall k :: 0 <= k < |Split(s, sep)| ==> !Contains(Split(s, sep)[k], sep)
    decreases |s|
  {
    match Find(s, sep)
    case None =>
    case Some(i) =>
      var rest := s[i + |sep|..];
      SplitPartsFree(rest, sep);
      if Contains(s[..i], sep) {
        var j :| 0 <= j <= i - |sep| && IsAt(s[..i], j, sep);
        assert s[j..j + |sep|] == s[..i][j..j + |sep|];
        assert IsAt(s, j, sep);
      }
  }

  /** The parts of a blank text are blank. */
  lemma {:induction false} SplitBlank(s: string, sep: string)
    requires |sep| > 0 && IsBlank(s)
    ensures forall k :: 0 <= k < |Split(s, sep)| ==> IsBlank(Split(s, sep)[k])
    decreases |s|
  {
    match Find(s, sep)
    case None =>
    case Some(i) =>
      var rest := s[i + |sep|..];
      assert IsBlank(rest) by {
        forall j | 0 <= j < |rest| ensures IsSpace(rest[j]) { assert rest[j] == s[i + |sep| + j]; }
      }
      assert IsBlank(s[..i]) by {
        forall j | 0 <= j < i ensures IsSpace(s[..i][j]) { assert s[..i][j] == s[j]; }
      }
      SplitBlank(rest, sep);
  }

  /** `s` has no character `c` (for a one-character `sub`, the same as `!Contains`). */
  predicate Lacks(s: string, c: char) { forall i :: 0 <= i < |s| ==> s[i] != c }

  lemma LacksContains(s: string, c: char)
    ensures Lacks(s, c) <==> !Contains(s, [c])
  {
    if !Lacks(s, c) {
      var i :| 0 <= i < |s| && s[i] == c;
      assert s[i..i + 1] == [c];
      assert IsAt(s, i, [c]);
    }
    if Contains(s, [c]) {
      var i :| 0 <= i <= |s| - 1 && IsAt(s, i, [c]);
      assert s[i] == s[i..i + 1][0];
    }
  }

  /** Joining with " -> " keeps the first and the last part at the ends. */
  lemma {:induction false} JoinEnds(sep: string, parts: seq<string>)
    requires |parts| >= 1
    ensures StartsWith(Join(sep, parts), parts[0])
    ensures EndsWith(Join(sep, parts), Last(parts))
  {
    if |parts| > 1 {
      JoinEnds(sep, parts[1..]);
      var r := Join(sep, parts[1..]);
      assert Join(sep, parts) == parts[0] + sep + r;
      assert (parts[0] + sep + r)[..|parts[0]|] == parts[0];
      assert Last(parts[1..]) == Last(parts);
      assert (parts[0] + sep + r)[|parts[0] + sep + r| - |Last(parts)|..] == r[|r| - |Last(parts)|..];
    }
  }

  /** With a one-character separator that no part contains, splitting undoes joining. */
  lemma {:induction false} SplitJoin(parts: seq<string>, sep: string)
    requires |sep| == 1 && |parts| >= 1
    requires forall k :: 0 <= k < |parts| ==> !Contains(parts[k], sep)
    ensures Split(Join(sep, parts), sep) == parts
    decreases |parts|
  {
    var s := Join(sep, parts);
    var x := parts[0];
    assert forall j :: 0 <= j <= |x| - |sep| ==> !IsAt(x, j, sep);
    if |parts| > 1 {
      var rest := parts[1..];
      assert s == x + sep + Join(sep, rest);
      assert IsAt(s, |x|, sep);
      forall j | 0 <= j < |x| ensures !IsAt(s, j, sep) {
        assert !IsAt(x, j, sep);
        assert s[j..j + 1] == [s[j]] == [x[j]] == x[j..j + 1];
      }
      assert Find(s, sep) == Some(|x|);
      assert s[|x| + 1..] == Join(sep, rest);
      SplitJoin(rest, sep);
      assert s[..|x|] == x;
    }
  }

  /** Python's `s.replace(old, new)`: every non-overlapping occurrence, left to right. */
  function Replace(s: string, pat: string, rep: string): string
    requires |pat| > 0
    decreases |s|
  {
    match Find(s, pat)
    case None => s
    case Some(i) => s[..i] + rep + Replace(s[i + |pat|..], pat, rep)
  }

  // ---------------------------------------------------------------- whitespace runs

  /** Length of the leading run of non-whitespace characters. */
  function WordLen(s: string): (n: nat)
    ensures n <= |s|
    ensures forall i :: 0 <= i < n ==> !IsSpace(s[i])
    ensures n < |s| ==> IsSpace(s[n])
  {
    if s != [] && !IsSpace(s[0]) then 1 + WordLen(s[1..]) else 0
  }

  /** Python's `s.split()` with no argument: the maximal runs of non-whitespace. */
  function SplitWhitespace(s: string): (r: seq<string>)
    ensures forall k :: 0 <= k < |r| ==> r[k] != [] && forall i :: 0 <= i < |r[k]| ==> !IsSpace(r[k][i])
    decreases |s|
  {
    var t := TrimLeft(s);
    if t == [] then [] else
      var w := WordLen(t);
      [t[..w]] + SplitWhitespace(t[w..])
  }

  predicate IsWord(w: string) {
    w != [] && forall i :: 0 <= i < |w| ==> !IsSpace(w[i])
  }

  /** Joining words with single spaces and splitting on whitespace gives the words back. */
  lemma {:induction false} SplitWhitespaceJoin(words: seq<string>)
    requires forall k :: 0 <= k < |words| ==> IsWord(words[k])
    ensures SplitWhitespace(Join(" ", words)) == words
    decreases |words|
  {
    if |words| == 1 {
      SplitWhitespaceCons(words[0], "");
      assert words[0] + "" == words[0];
    } else if |words| > 1 {
      var w, rest := words[0], words[1..];
      var r := Join(" ", rest);
      assert words == [w] + rest;
      JoinCons(" ", w, rest);
      ConcatAssoc(w, " ", r);
      JoinStartsWithWord(rest);
      SplitWhitespaceCons(w, " " + r);
      SplitWhitespaceSpace(r);
      SplitWhitespaceJoin(rest);
    }
  }

  lemma {:induction false} JoinStartsWithWord(words: seq<string>)
    requires |words| >= 1 && IsWord(words[0])
    ensures |Join(" ", words)| > 0 && !IsSpace(Join(" ", words)[0])
  {
    if |words| > 1 {
      assert Join(" ", words) == words[0] + " " + Join(" ", words[1..]);
      assert Join(" ", words)[0] == words[0][0];
    }
  }

  lemma SplitWhitespaceCons(w: string, tail: string)
    requires IsWord(w)
    requires tail == [] || IsSpace(tail[0])
    ensures SplitWhitespace(w + tail) == [w] + SplitWhitespace(tail)
  {
    var s := w + tail;
    assert s[0] == w[0];
    assert LeadCount(s) == 0;
    assert TrimLeft(s) == s;
    WordLenPrefix(w, tail);
    assert s[..|w|] == w && s[|w|..] == tail;
  }

  lemma SplitWhitespaceSpace(r: string)
    requires r == [] || !IsSpace(r[0])
    ensures SplitWhitespace(" " + r) == SplitWhitespace(r)
  {
    var s := " " + r;
    assert s[1..] == r;
    assert LeadCount(r) == 0;
    assert LeadCount(s) == 1;
    assert TrimLeft(s) == r;
    assert TrimLeft(r) == r;
  }

  lemma {:induction false} WordLenPrefix(w: string, tail: string)
    requires forall i :: 0 <= i < |w| ==> !IsSpace(w[i])
    requires tail == [] || IsSpace(tail[0])
    ensures WordLen(w + tail) == |w|
  {
    if w != [] {
      assert (w + tail)[1..] == w[1..] + tail;
      WordLenPrefix(w[1..], tail);
    }
  }

  /** `re.sub(r'\s+', ' ', s)`: every maximal run of whitespace becomes one space. */
  function CollapseWhitespace(s: string): (r: string)
    ensures |r| <= |s|
    ensures forall i :: 0 <= i < |r| ==> (IsSpace(r[i]) ==> r[i] == ' ')
    decreases |s|
  {
    if s == [] then []
    else if IsSpace(s[0]) then " " + CollapseWhitespace(s[LeadCount(s)..])
    else [s[0]] + CollapseWhitespace(s[1..])
  }

  lemma {:induction false} CollapseEmpty(s: string)
    ensures CollapseWhitespace(s) == [] <==> s == []
  {
  }

  /** The last index of `c` in `s`, or -1 (Python's `s.rfind(c)`). */
  function RFind(s: string, c: char): (r: int)
    ensures -1 <= r < |s|
    ensures r >= 0 ==> s[r] == c
    ensures forall j :: r < j < |s| ==> s[j] != c
  {
    if s == [] then -1 else if Last(s) == c then |s| - 1 else RFind(s[..|s| - 1], c)
  }

  /** `rfind` is the last occurrence: any position holding c with no c after it is the result. */
  lemma RFindIs(s: string, c: char, r: int)
    requires -1 <= r < |s| && (r >= 0 ==> s[r] == c)
    requires forall j :: r < j < |s| ==> s[j] != c
    ensures RFind(s, c) == r
  {
  }

  /** `rfind` on a suffix `s[a..]`: the last occurrence moves back by a. */
  lemma RFindAfter(s: string, c: char, a: nat, r: int)
    requires a <= |s| && a - 1 <= r < |s| && (r >= a ==> s[r] == c)
    requires forall j :: r < j < |s| ==> s[j] != c
    ensures RFind(s[a..], c) == r - a
  {
    var t := s[a..];
    forall j | r - a < j < |t| ensures t[j] != c {
      assert t[j] == s[a + j];
    }
    RFindIs(t, c, r - a);
  }

  /** The lines of a text split on "\n" contain no line break. */
  lemma SplitLinesFree(s: string)
    ensures forall k :: 0 <= k < |Split(s, "\n")| ==> Lacks(Split(s, "\n")[k], '\n')
  {
    SplitPartsFree(s, "\n");
    forall k | 0 <= k < |Split(s, "\n")| ensures Lacks(Split(s, "\n")[k], '\n') {
      LacksContains(Split(s, "\n")[k], '\n');
    }
  }

  /** Lines without a line break, joined with "\n", split back into the same lines. */
  lemma LinesRoundTrip(lines: seq<string>)
    requires |lines| >= 1
    requires forall k :: 0 <= k < |lines| ==> Lacks(lines[k], '\n')
    ensures Split(Join("\n", lines), "\n") == lines
  {
    forall k | 0 <= k < |lines| ensures !Contains(lines[k], "\n") {
      LacksContains(lines[k], '\n');
    }
    SplitJoin(lines, "\n");
  }

  lemma LacksSlice(s: string, a: nat, b: nat)
    requires a <= b <= |s| && Lacks(s, '\n')
    ensures Lacks(s[a..b], '\n')
  {
    assert forall i :: 0 <= i < b - a ==> s[a..b][i] == s[a + i];
  }

  lemma LacksConcat(a: string, b: string)
    requires Lacks(a, '\n') && Lacks(b, '\n')
    ensures Lacks(a + b, '\n')
  {
    assert forall i :: |a| <= i < |a + b| ==> (a + b)[i] == b[i - |a|];
  }

  /** A text without the separator's first character does not contain it. */
  lemma LacksFirst(s: string, sep: string)
    requires |sep| > 0 && Lacks(s, sep[0])
    ensures !Contains(s, sep)
  {
    forall i | 0 <= i <= |s| - |sep| ensures !IsAt(s, i, sep) {
      assert s[i..i + |sep|][0] == s[i];
    }
  }

  /** Splitting a text without the separator gives the text alone. */
  lemma SplitAbsent(s: string, sep: string)
    requires |sep| > 0 && !Contains(s, sep)
    ensures Split(s, sep) == [s]
  {
  }

  lemma StripLacks(s: string)
    requires Lacks(s, '\n')
    ensures Lacks(Strip(s), '\n')
  {
    LacksSlice(s, LeadCount(s), LeadCount(s) + |Strip(s)|);
  }

  lemma {:induction false} JoinAppend(sep: string, parts: seq<string>, x: string)
    requires |parts| >= 1
    ensures Join(sep, parts + [x]) == Join(sep, parts) + sep + x
  {
    JoinSnoc(sep, parts, x);
  }

  lemma {:induction false} JoinLacks(sep: string, parts: seq<string>)
    requires Lacks(sep, '\n') && forall k :: 0 <= k < |parts| ==> Lacks(parts[k], '\n')
    ensures Lacks(Join(sep, parts), '\n')
  {
    if |parts| > 1 {
      JoinLacks(sep, parts[1..]);
      LacksConcat(parts[0], sep);
      LacksConcat(parts[0] + sep, Join(sep, parts[1..]));
    }
  }

  /** Collapsed whitespace is all plain spaces, so no line break is left. */
  lemma CollapseLacks(s: string)
    ensures Lacks(CollapseWhitespace(s), '\n')
  {
    var r := CollapseWhitespace(s);
    forall i | 0 <= i < |r| ensures r[i] != '\n' {
      if r[i] == '\n' { assert IsSpace(r[i]); }
    }
  }

  // ---------------------------------------------------------------- slicing

  /** Python's `s[:n]` for any integer n. */
  function PyTake<T>(s: seq<T>, n: int): (r: seq<T>)
    ensures |r| <= |s|
    ensures r == s[..|r|]
  {
    if n >= 0 then s[..if n < |s| then n else |s|]
    else s[..if |s| + n > 0 then |s| + n else 0]
  }

  /** Python's `s[n:]` for any integer n. */
  function PyDrop<T>(s: seq<T>, n: int): (r: seq<T>)
    ensures |r| <= |s|
    ensures r == s[|s| - |r|..]
  {
    if n >= 0 then s[if n < |s| then n else |s|..]
    else s[if |s| + n > 0 then |s| + n else 0..]
  }

  // ---------------------------------------------------------------- numbers

  function DigitChar(d: nat): char
    requires d < 10
  {
    ('0' as int + d) as char
  }

  /** `s[-n:]` when s is longer than n, else s. */
  function KeepLast<T>(s: seq<T>, n: nat): (r: seq<T>)
    ensures |r| == if |s| > n then n else |s|
    ensures r == s[|s| - |r|..]
  {
    if |s| > n then s[|s| - n..] else s
  }

  /** Python's `a <= b` on strings: lexicographic by code point, a prefix first. */
  predicate StrLe(a: string, b: string)
    decreases |a|
  {
    a == [] || (b != [] && (a[0] < b[0] || (a[0] == b[0] && StrLe(a[1..], b[1..]))))
  }

  lemma {:induction false} StrLeTotal(a: string, b: string)
    ensures StrLe(a, b) || StrLe(b, a)
    decreases |a|
  {
    if a != [] && b != [] && a[0] == b[0] {
      StrLeTotal(a[1..], b[1..]);
    }
  }

  lemma {:induction false} StrLeTrans(a: string, b: string, c: string)
    requires StrLe(a, b) && StrLe(b, c)
    ensures StrLe(a, c)
    decreases |a|
  {
    if a != [] && a[0] == b[0] && b[0] == c[0] {
      StrLeTrans(a[1..], b[1..], c[1..]);
    }
  }

  /** Python's `str(n)` for a natural number. */
  function NatToString(n: nat): (r: string)
    ensures |r| >= 1
    ensures forall i :: 0 <= i < |r| ==> IsDigit(r[i])
  {
    if n < 10 then [DigitChar(n)] else NatToString(n / 10) + [DigitChar(n % 10)]
  }

  /** Python's `str(i)` for any integer. */
  function IntToString(i: int): (r: string)
    ensures |r| >= 1
  {
    if i < 0 then "-" + NatToString(-i) else NatToString(i)
  }
}
