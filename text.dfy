/** The JavaScript string operations the core relies on, for strings as
    sequences of characters. Lowercasing is ASCII lowercasing. */
module Text {

  /** The characters JavaScript's `\s` matches and `String.prototype.trim`
      removes: white space and line terminators. */
  predicate IsSpace(c: char) {
    c in SpaceChars || '\U{2000}' <= c <= '\U{200A}'
  }

  /** The white-space characters outside the range U+2000 to U+200A. */
  const SpaceChars: set<char> :=
    {' ', '\t', '\n', '\r', '\U{000B}', '\U{000C}', '\U{00A0}', '\U{1680}',
     '\U{2028}', '\U{2029}', '\U{202F}', '\U{205F}', '\U{3000}', '\U{FEFF}'}

  predicate IsBlank(s: string) {
    forall i | 0 <= i < |s| :: IsSpace(s[i])
  }

  function LowerChar(c: char): char {
    if 'A' <= c <= 'Z' then (c as int + 32) as char else c
  }

  /** `toLowerCase`, on the ASCII letters. */
  function Lower(s: string): (r: string)
    ensures |r| == |s|
    ensures forall i | 0 <= i < |s| :: r[i] == LowerChar(s[i])
  {
    seq(|s|, i requires 0 <= i < |s| => LowerChar(s[i]))
  }

  /** The number of white-space characters `s` starts with. */
  function LeadingSpaces(s: string): (n: nat)
    ensures n <= |s|
    ensures n < |s| ==> !IsSpace(s[n])
    ensures forall m | 0 <= m < n :: IsSpace(s[m])
  {
    if s != [] && IsSpace(s[0]) then
      var n := 1 + LeadingSpaces(s[1..]);
      assert forall m | 1 <= m < n :: s[m] == s[1..][m - 1];
      n
    else 0
  }

  /** The number of white-space characters `s` ends with. */
  function TrailingSpaces(s: string): (n: nat)
    ensures n <= |s|
    ensures n < |s| ==> !IsSpace(s[|s| - 1 - n])
    ensures forall m | |s| - n <= m < |s| :: IsSpace(s[m])
  {
    if s != [] && IsSpace(s[|s| - 1]) then
      var n := 1 + TrailingSpaces(s[..|s| - 1]);
      assert forall m | |s| - n <= m < |s| - 1 :: s[m] == s[..|s| - 1][m];
      n
    else 0
  }

  /** `trimStart`. */
  function TrimStart(s: string): (r: string)
    ensures |r| <= |s|
    ensures r == [] || !IsSpace(r[0])
  {
    s[LeadingSpaces(s)..]
  }

  /** `trimEnd`. */
  function TrimEnd(s: string): (r: string)
    ensures |r| <= |s|
    ensures r == [] || !IsSpace(r[|r| - 1])
  {
    s[..|s| - TrailingSpaces(s)]
  }

  /** `trim`. */
  function Trim(s: string): string {
    TrimEnd(TrimStart(s))
  }

  /** The trimmed text is the original with a blank start, `a` characters
      long, and a blank end cut off. */
  lemma TrimIsSlice(s: string)
    ensures var a := LeadingSpaces(s); var r := Trim(s);
      && a + |r| <= |s|
      && r == s[a..a + |r|]
      && (forall m | 0 <= m < a :: IsSpace(s[m]))
      && (forall m | a + |r| <= m < |s| :: IsSpace(s[m]))
  {
    var a := LeadingSpaces(s);
    var t := s[a..];
    var b := TrailingSpaces(t);
    assert TrimStart(s) == t;
    var r := t[..|t| - b];
    assert Trim(s) == r;
    assert |r| == |s| - a - b;
    SliceOfSlice(s, a, |r|);
    BlankAfterSlice(s, a, b);
  }

  lemma SliceOfSlice(s: string, a: nat, k: nat)
    requires a + k <= |s|
    ensures s[a..][..k] == s[a..a + k]
  {
  }

  lemma BlankAfterSlice(s: string, a: nat, b: nat)
    requires a + b <= |s|
    requires forall m | |s| - a - b <= m < |s| - a :: IsSpace(s[a..][m])
    ensures forall m | |s| - b <= m < |s| :: IsSpace(s[m])
  {
    forall m | |s| - b <= m < |s| ensures IsSpace(s[m]) {
      assert s[m] == s[a..][m - a];
    }
  }

  /** The trimmed text has no white space at either end, and is empty exactly
      when `s` is blank. */
  lemma TrimShape(s: string)
    ensures var r := Trim(s);
      && (r == [] || (!IsSpace(r[0]) && !IsSpace(r[|r| - 1])))
      && (r == [] <==> IsBlank(s))
  {
    TrimIsSlice(s);
    var a := LeadingSpaces(s);
    var r := Trim(s);
    if r != [] {
      assert r[0] == s[a];
    }
  }

  /** A text with no white space at its ends is its own trim. */
  lemma TrimOfTrimmed(s: string)
    requires s != [] && !IsSpace(s[0]) && !IsSpace(s[|s| - 1])
    ensures Trim(s) == s
  {
    assert TrimStart(s) == s;
  }

  /** No two neighbouring white-space characters. */
  predicate NoSpaceRuns(s: string) {
    forall i | 0 <= i < |s| - 1 :: !(IsSpace(s[i]) && IsSpace(s[i + 1]))
  }

  /** `s.replace(/\s+/g, " ")`: every run of white space becomes one plain space. */
  function Collapse(s: string): string
    decreases |s|
  {
    if s == [] then []
    else if IsSpace(s[0]) then [' '] + Collapse(TrimStart(s[1..]))
    else [s[0]] + Collapse(s[1..])
  }

  /** Collapsing keeps emptiness and whether each end is white space. */
  lemma {:induction false} CollapseEnds(s: string)
    ensures var r := Collapse(s);
      && (r == [] <==> s == [])
      && (r != [] ==> (IsSpace(r[0]) <==> IsSpace(s[0])))
      && (r != [] ==> (IsSpace(r[|r| - 1]) <==> IsSpace(s[|s| - 1])))
    decreases |s|
  {
    if s == [] {
    } else if IsSpace(s[0]) {
      var tail := TrimStart(s[1..]);
      CollapseEnds(tail);
      var c := Collapse(tail);
      assert Collapse(s) == [' '] + c;
      if c == [] {
        assert IsBlank(s[1..]);
        assert |s| > 1 ==> s[|s| - 1] == s[1..][|s| - 2];
      } else {
        assert s[|s| - 1] == tail[|tail| - 1];
      }
    } else {
      var tail := s[1..];
      CollapseEnds(tail);
      var c := Collapse(tail);
      assert Collapse(s) == [s[0]] + c;
      if c != [] {
        assert s[|s| - 1] == tail[|tail| - 1];
      }
    }
  }

  /** Every white-space character of `s` is a plain space. */
  predicate PlainSpaces(s: string) {
    forall i | 0 <= i < |s| :: IsSpace(s[i]) ==> s[i] == ' '
  }

  lemma PlainSpacesCons(h: char, c: string)
    requires PlainSpaces(c) && (IsSpace(h) ==> h == ' ')
    ensures PlainSpaces([h] + c)
  {
    var r := [h] + c;
    forall i | 0 <= i < |r| ensures IsSpace(r[i]) ==> r[i] == ' ' {
      if i > 0 {
        assert r[i] == c[i - 1];
      }
    }
  }

  lemma NoSpaceRunsCons(h: char, c: string)
    requires NoSpaceRuns(c) && (IsSpace(h) ==> c == [] || !IsSpace(c[0]))
    ensures NoSpaceRuns([h] + c)
  {
    var r := [h] + c;
    forall i | 0 <= i < |r| - 1 ensures !(IsSpace(r[i]) && IsSpace(r[i + 1])) {
      if i > 0 {
        assert r[i] == c[i - 1] && r[i + 1] == c[i];
      }
    }
  }

  /** Collapsing leaves only plain spaces. */
  lemma {:induction false} CollapsePlainSpaces(s: string)
    ensures PlainSpaces(Collapse(s))
    decreases |s|
  {
    if s == [] {
    } else if IsSpace(s[0]) {
      var tail := TrimStart(s[1..]);
      CollapsePlainSpaces(tail);
      PlainSpacesCons(' ', Collapse(tail));
    } else {
      CollapsePlainSpaces(s[1..]);
      PlainSpacesCons(s[0], Collapse(s[1..]));
    }
  }

  /** No two white-space characters are side by side after collapsing. */
  lemma {:induction false} CollapseNoRuns(s: string)
    ensures NoSpaceRuns(Collapse(s))
    decreases |s|
  {
    if s == [] {
    } else if IsSpace(s[0]) {
      var tail := TrimStart(s[1..]);
      CollapseNoRuns(tail);
      CollapseEnds(tail);
      NoSpaceRunsCons(' ', Collapse(tail));
    } else {
      CollapseNoRuns(s[1..]);
      NoSpaceRunsCons(s[0], Collapse(s[1..]));
    }
  }

  /** Both halves of the shape of a collapsed text. */
  lemma CollapseShape(s: string)
    ensures var r := Collapse(s);
      && (r == [] <==> s == [])
      && (r != [] ==> (IsSpace(r[0]) <==> IsSpace(s[0])))
      && (r != [] ==> (IsSpace(r[|r| - 1]) <==> IsSpace(s[|s| - 1])))
      && PlainSpaces(r)
      && NoSpaceRuns(r)
  {
    CollapseEnds(s);
    CollapsePlainSpaces(s);
    CollapseNoRuns(s);
  }

  /** A text without white space collapses to itself. */
  lemma {:induction false} CollapseWithoutSpace(s: string)
    requires NoSpace(s)
    ensures Collapse(s) == s
    decreases |s|
  {
    if s != [] {
      CollapseWithoutSpace(s[1..]);
      assert [s[0]] + s[1..] == s;
    }
  }

  /** `replace(/\s+/g, " ")` read one character at a time: a character that
      is not white space is kept, the first white-space character of a run
      becomes one plain space, and the rest of the run is dropped.
      `afterSpace` says whether the character before `s` was white space. */
  function CollapseScan(s: string, afterSpace: bool): string
    decreases |s|
  {
    if s == [] then []
    else if IsSpace(s[0]) then (if afterSpace then [] else [' ']) + CollapseScan(s[1..], true)
    else [s[0]] + CollapseScan(s[1..], false)
  }

  /** Inside a run the leading white space is dropped. */
  lemma {:induction false} CollapseScanSkips(s: string)
    ensures CollapseScan(s, true) == CollapseScan(TrimStart(s), true)
    decreases |s|
  {
    if s != [] && IsSpace(s[0]) {
      CollapseScanSkips(s[1..]);
      assert LeadingSpaces(s) == 1 + LeadingSpaces(s[1..]);
      assert TrimStart(s) == TrimStart(s[1..]);
    } else {
      assert TrimStart(s) == s;
    }
  }

  /** Collapsing is the one-character-at-a-time scan: every white-space run
      gives exactly one plain space and every other character is kept, in
      order. */
  lemma {:induction false} CollapseIsScan(s: string)
    ensures Collapse(s) == CollapseScan(s, false)
    decreases |s|
  {
    if s != [] {
      if IsSpace(s[0]) {
        var tail := TrimStart(s[1..]);
        CollapseIsScan(tail);
        CollapseScanSkips(s[1..]);
        assert CollapseScan(tail, true) == CollapseScan(tail, false);
      } else {
        CollapseIsScan(s[1..]);
      }
    }
  }

  predicate NoSpace(s: string) {
    forall i | 0 <= i < |s| :: !IsSpace(s[i])
  }

  /** A word without white space is copied as it is. */
  lemma {:induction false} ScanWord(w: string, t: string, afterSpace: bool)
    requires NoSpace(w)
    ensures CollapseScan(w + t, afterSpace) == w + CollapseScan(t, if w == [] then afterSpace else false)
    decreases |w|
  {
    if w != [] {
      assert (w + t)[1..] == w[1..] + t;
      assert NoSpace(w[1..]) by {
        forall i | 0 <= i < |w[1..]| ensures !IsSpace(w[1..][i]) {
          assert w[1..][i] == w[i + 1];
        }
      }
      ScanWord(w[1..], t, false);
      assert !IsSpace((w + t)[0]);
      assert CollapseScan(w + t, afterSpace) == [w[0]] + (w[1..] + CollapseScan(t, false));
      assert [w[0]] + w[1..] == w;
    } else {
      assert w + t == t;
    }
  }

  /** Inside a run, more white space adds nothing. */
  lemma {:induction false} ScanInRun(r: string, t: string)
    requires IsBlank(r)
    ensures CollapseScan(r + t, true) == CollapseScan(t, true)
    decreases |r|
  {
    if r != [] {
      assert (r + t)[1..] == r[1..] + t;
      assert IsSpace((r + t)[0]);
      ScanInRun(r[1..], t);
    } else {
      assert r + t == t;
    }
  }

  /** One run of white space between two words becomes one plain space:
      `"a \t b"` gives `"a b"`. */
  lemma CollapseRunBetweenWords(a: string, run: string, b: string)
    requires NoSpace(a) && NoSpace(b) && run != [] && IsBlank(run)
    ensures Collapse(a + run + b) == a + " " + b
  {
    CollapseIsScan(a + run + b);
    assert a + run + b == a + (run + b);
    ScanWord(a, run + b, false);
    assert (run + b)[1..] == run[1..] + b;
    assert IsSpace((run + b)[0]);
    ScanInRun(run[1..], b);
    ScanWord(b, [], true);
    assert b + [] == b;
  }

  /** `s.includes(q)`. */
  predicate Contains(s: string, q: string)
    decreases |s|
  {
    q <= s || (s != [] && Contains(s[1..], q))
  }

  /** `q` occurs in `s` starting at index `k`. */
  predicate OccursAt(s: string, q: string, k: nat) {
    k + |q| <= |s| && s[k..k + |q|] == q
  }

  /** `Contains` agrees with the textbook definition of a substring. */
  lemma ContainsIsSubstring(s: string, q: string)
    ensures Contains(s, q) <==> exists k: nat :: OccursAt(s, q, k)
  {
    if Contains(s, q) {
      var k := ContainsAt(s, q);
    }
    if exists k: nat :: OccursAt(s, q, k) {
      var k: nat :| OccursAt(s, q, k);
      OccursAtContains(s, q, k);
    }
  }

  lemma {:induction false} ContainsAt(s: string, q: string) returns (k: nat)
    requires Contains(s, q)
    ensures OccursAt(s, q, k)
    decreases |s|
  {
    if q <= s {
      k := 0;
    } else {
      var j := ContainsAt(s[1..], q);
      assert s[1..][j..j + |q|] == s[j + 1..j + 1 + |q|];
      k := j + 1;
    }
  }

  lemma {:induction false} OccursAtContains(s: string, q: string, k: nat)
    requires OccursAt(s, q, k)
    ensures Contains(s, q)
    decreases k
  {
    if k == 0 {
      assert s[..|q|] == q;
    } else {
      assert s[1..][k - 1..k - 1 + |q|] == s[k..k + |q|];
      OccursAtContains(s[1..], q, k - 1);
    }
  }

  lemma {:induction false} ContainsAppend(a: string, b: string, q: string)
    requires Contains(a, q) || Contains(b, q)
    ensures Contains(a + b, q)
    decreases |a|
  {
    if a == [] {
      assert a + b == b;
    } else if q <= a {
      assert q <= a + b;
    } else {
      assert (a + b)[1..] == a[1..] + b;
      ContainsAppend(a[1..], b, q);
    }
  }

  /** A string without the character `c` contains no query holding `c`. */
  lemma {:induction false} ContainsNeedsChar(s: string, q: string, c: char)
    requires c in q && c !in s
    ensures !Contains(s, q)
    decreases |s|
  {
    if s != [] {
      assert c !in s[1..];
      ContainsNeedsChar(s[1..], q, c);
    }
  }

  /** `s.slice(0, n)` for a non-negative `n`. */
  function Take(s: string, n: nat): string {
    if |s| <= n then s else s[..n]
  }

  /** The slice is the start of `s`, `n` long unless `s` is shorter. */
  lemma TakeIsPrefix(s: string, n: nat)
    ensures Take(s, n) <= s && |Take(s, n)| == if |s| <= n then |s| else n
  {
  }

  function Digit(d: nat): char
    requires d < 10
  {
    ('0' as int + d) as char
  }

  function DigitValue(c: char): nat {
    if '0' <= c <= '9' then c as int - '0' as int else 0
  }

  /** The value of a string of decimal digits. */
  function DecimalValue(s: string): nat {
    if s == [] then 0 else DecimalValue(s[..|s| - 1]) * 10 + DigitValue(s[|s| - 1])
  }

  /** `parts.join(sep)`. */
  function Join(parts: seq<string>, sep: string): string {
    if parts == [] then ""
    else if |parts| == 1 then parts[0]
    else parts[0] + sep + Join(parts[1..], sep)
  }

  /** Joining a part in front of at least one more adds the separator. */
  lemma JoinCons(x: string, rest: seq<string>, sep: string)
    requires |rest| >= 1
    ensures Join([x] + rest, sep) == x + sep + Join(rest, sep)
  {
    assert ([x] + rest)[1..] == rest;
  }

  /** Every part occurs in the joined string, so a query matching one part
      matches the join. */
  lemma {:induction false} JoinContainsParts(parts: seq<string>, sep: string, i: nat, q: string)
    requires i < |parts| && Contains(parts[i], q)
    ensures Contains(Join(parts, sep), q)
  {
    if |parts| == 1 {
    } else if i == 0 {
      ContainsAppend(parts[0], sep, q);
      ContainsAppend(parts[0] + sep, Join(parts[1..], sep), q);
    } else {
      JoinContainsParts(parts[1..], sep, i - 1, q);
      ContainsAppend(parts[0] + sep, Join(parts[1..], sep), q);
    }
  }
}
