/** frontend/src/components/TagInput.jsx: editing a list of tags with a text
    box. The component owns the text; the list comes from its parent. */
module TagInput {
  import opened Text
  import opened Lists

  /** The tag list and the text of the box. */
  datatype Field = Field(tags: seq<string>, text: string)

  /** Trimmed, with every white-space run made one plain space. */
  function NormalizeTag(raw: string): string {
    Collapse(Trim(raw))
  }

  /** `value.some(v => v.toLowerCase() === t.toLowerCase())`. */
  predicate HasTagIgnoringCase(tags: seq<string>, t: string) {
    exists i | 0 <= i < |tags| :: Lower(tags[i]) == Lower(t)
  }

  /** No two tags equal ignoring case. */
  predicate DistinctIgnoringCase(tags: seq<string>) {
    forall i, j | 0 <= i < j < |tags| :: Lower(tags[i]) != Lower(tags[j])
  }

  /** A normalised tag that is not blank has no white space at its ends and
      no white space but single plain spaces. */
  lemma NormalizeTagShape(raw: string)
    requires !IsBlank(raw)
    ensures var n := NormalizeTag(raw);
      && n != []
      && !IsSpace(n[0]) && !IsSpace(n[|n| - 1])
      && NoSpaceRuns(n)
      && forall i | 0 <= i < |n| :: IsSpace(n[i]) ==> n[i] == ' '
  {
    CollapseShape(Trim(raw));
  }

  /** `addTag(raw)`. A blank input changes nothing; otherwise the text is
      cleared and the normalised tag appended unless a tag equal to it
      ignoring case exists or the list already holds `maxTags` tags. */
  function AddTag(f: Field, raw: string, maxTags: int): Field {
    var t := Trim(raw);
    if t == "" then f
    else
      var n := Collapse(t);
      if HasTagIgnoringCase(f.tags, n) || |f.tags| >= maxTags then Field(f.tags, "")
      else Field(f.tags + [n], "")
  }

  /** The outcomes of `addTag`: unchanged on blank input, otherwise either the
      list is kept or the normalised tag is appended at the end, exactly when
      it is new ignoring case and the list is below the bound. */
  lemma AddTagOutcome(f: Field, raw: string, maxTags: int)
    ensures var r := AddTag(f, raw, maxTags);
      && (IsBlank(raw) ==> r == f)
      && (!IsBlank(raw) ==> r.text == "")
      && (r.tags == f.tags || r.tags == f.tags + [NormalizeTag(raw)])
      && (r.tags == f.tags + [NormalizeTag(raw)] <==>
            !IsBlank(raw) && !HasTagIgnoringCase(f.tags, NormalizeTag(raw)) && |f.tags| < maxTags)
  {
    var r := AddTag(f, raw, maxTags);
    assert r.tags != f.tags + [NormalizeTag(raw)] <== |r.tags| == |f.tags|;
  }

  /** A list within the bound stays within it. */
  lemma AddTagKeepsBound(f: Field, raw: string, maxTags: int)
    requires |f.tags| <= maxTags
    ensures |AddTag(f, raw, maxTags).tags| <= maxTags
  {
  }

  /** A list without duplicates ignoring case stays without them. */
  lemma AddTagKeepsDistinct(f: Field, raw: string, maxTags: int)
    requires DistinctIgnoringCase(f.tags)
    ensures DistinctIgnoringCase(AddTag(f, raw, maxTags).tags)
  {
    var r := AddTag(f, raw, maxTags);
    if |r.tags| == |f.tags| + 1 {
      var n := NormalizeTag(raw);
      assert r.tags == f.tags + [n];
      forall i, j | 0 <= i < j < |r.tags| ensures Lower(r.tags[i]) != Lower(r.tags[j]) {
        if j == |f.tags| {
          assert r.tags[i] == f.tags[i];
        }
      }
    }
  }

  /** `next.splice(idx, 1)` on a copy of `s`: a negative index counts from the
      end, an index past the end removes nothing. */
  function Splice(s: seq<string>, idx: int): (r: seq<string>)
    ensures |r| == if -|s| <= idx < |s| then |s| - 1 else if idx < -|s| && s != [] then |s| - 1 else |s|
  {
    var start := if idx < 0 then (if |s| + idx < 0 then 0 else |s| + idx) else (if idx < |s| then idx else |s|);
    if start < |s| then s[..start] + s[start + 1..] else s
  }

  /** `removeTag(idx)` for an index of the list removes exactly that tag and
      keeps the others in order. */
  lemma RemoveTagExact(s: seq<string>, idx: int)
    requires 0 <= idx < |s|
    ensures var r := Splice(s, idx);
      && |r| == |s| - 1
      && r[..idx] == s[..idx]
      && r[idx..] == s[idx + 1..]
      && multiset(r) + multiset{s[idx]} == multiset(s)
  {
    var r := Splice(s, idx);
    assert s == s[..idx] + [s[idx]] + s[idx + 1..];
    assert r == s[..idx] + s[idx + 1..];
  }

  /** Out-of-range indexes: past the end nothing is removed, a negative one
      counts from the end. */
  lemma RemoveTagOtherIndexes(s: seq<string>, idx: int)
    ensures idx >= |s| ==> Splice(s, idx) == s
    ensures -|s| <= idx < 0 ==> Splice(s, idx) == Splice(s, |s| + idx)
  {
  }

  /** `onKeyDown`: Enter or comma adds the text as a tag; Backspace in an
      empty box removes the last tag. */
  function OnKeyDown(f: Field, key: string, maxTags: int): Field {
    if key == "Enter" || key == "," then AddTag(f, f.text, maxTags)
    else if key == "Backspace" && f.text == "" && |f.tags| > 0 then Field(Splice(f.tags, |f.tags| - 1), f.text)
    else f
  }

  lemma BackspaceRemovesLast(f: Field, maxTags: int)
    ensures f.text == "" && f.tags != [] ==> OnKeyDown(f, "Backspace", maxTags).tags == f.tags[..|f.tags| - 1]
    ensures f.text != "" || f.tags == [] ==> OnKeyDown(f, "Backspace", maxTags) == f
  {
  }

  // ---------------------------------------------------------------------------
  // Pasting

  predicate IsSeparator(c: char) {
    c == '\n' || c == ','
  }

  function SkipSeparators(s: string): (r: string)
    ensures |r| <= |s| && r == s[|s| - |r|..]
    ensures r == [] || !IsSeparator(r[0])
  {
    if s != [] && IsSeparator(s[0]) then SkipSeparators(s[1..]) else s
  }

  /** `s.split(/[\n,]+/)`: the pieces between maximal runs of newlines and
      commas, with an empty piece before a leading run and after a trailing
      one. */
  function SplitRuns(s: string): (r: seq<string>)
    ensures |r| >= 1
    ensures forall k | 0 <= k < |r| :: forall i | 0 <= i < |r[k]| :: !IsSeparator(r[k][i])
    decreases |s|
  {
    if s == [] then [""]
    else if IsSeparator(s[0]) then [""] + SplitRuns(SkipSeparators(s))
    else
      var rest := SplitRuns(s[1..]);
      [[s[0]] + rest[0]] + rest[1..]
  }

  /** A text without newlines or commas is one piece. */
  lemma {:induction false} SplitRunsOfPiece(s: string)
    requires forall i | 0 <= i < |s| :: !IsSeparator(s[i])
    ensures SplitRuns(s) == [s]
    decreases |s|
  {
    if s != [] {
      SplitRunsOfPiece(s[1..]);
      assert [s[0]] + s[1..] == s;
    }
  }

  function Concat(parts: seq<string>): string {
    if parts == [] then "" else parts[0] + Concat(parts[1..])
  }

  function DropSeparators(s: string): (r: string) {
    if s == [] then "" else (if IsSeparator(s[0]) then "" else [s[0]]) + DropSeparators(s[1..])
  }

  lemma {:induction false} DropSeparatorsSkip(s: string)
    ensures DropSeparators(SkipSeparators(s)) == DropSeparators(s)
  {
    if s != [] && IsSeparator(s[0]) {
      DropSeparatorsSkip(s[1..]);
    }
  }

  /** Splitting loses nothing but the separators: the pieces put together are
      the text without its newlines and commas. */
  lemma {:induction false} SplitRunsLosesOnlySeparators(s: string)
    ensures Concat(SplitRuns(s)) == DropSeparators(s)
    decreases |s|
  {
    if s == [] {
    } else if IsSeparator(s[0]) {
      SplitRunsLosesOnlySeparators(SkipSeparators(s));
      DropSeparatorsSkip(s);
      DropSeparatorsSkip(s[1..]);
      assert Concat(SplitRuns(s)) == Concat(SplitRuns(SkipSeparators(s)));
      assert DropSeparators(s) == DropSeparators(s[1..]);
      assert SkipSeparators(s) == SkipSeparators(s[1..]);
    } else {
      var rest := SplitRuns(s[1..]);
      SplitRunsLosesOnlySeparators(s[1..]);
      var r := [[s[0]] + rest[0]] + rest[1..];
      assert SplitRuns(s) == r;
      assert r[1..] == rest[1..];
      assert Concat(r) == ([s[0]] + rest[0]) + Concat(rest[1..]);
      assert Concat(rest) == rest[0] + Concat(rest[1..]);
      assert DropSeparators(s) == [s[0]] + DropSeparators(s[1..]);
    }
  }

  /** The text read one character at a time with each maximal run of
      newlines and commas replaced by one comma. `afterSeparator` says whether
      the character before `s` was a separator. */
  function MarkRuns(s: string, afterSeparator: bool): string
    decreases |s|
  {
    if s == [] then []
    else if IsSeparator(s[0]) then (if afterSeparator then [] else [',']) + MarkRuns(s[1..], true)
    else [s[0]] + MarkRuns(s[1..], false)
  }

  /** Inside a run the leading separators are dropped. */
  lemma {:induction false} MarkRunsSkips(s: string)
    ensures MarkRuns(s, true) == MarkRuns(SkipSeparators(s), true)
    decreases |s|
  {
    if s != [] && IsSeparator(s[0]) {
      MarkRunsSkips(s[1..]);
    }
  }

  /** Growing the first piece grows the joined text at its start. */
  lemma JoinGrowsFirst(c: char, rest: seq<string>, sep: string)
    requires |rest| >= 1
    ensures Join([[c] + rest[0]] + rest[1..], sep) == [c] + Join(rest, sep)
  {
    if |rest| == 1 {
      assert [[c] + rest[0]] + rest[1..] == [[c] + rest[0]];
    } else {
      JoinCons([c] + rest[0], rest[1..], sep);
      assert [rest[0]] + rest[1..] == rest;
      JoinCons(rest[0], rest[1..], sep);
      var tail := Join(rest[1..], sep);
      assert ([c] + rest[0]) + sep + tail == [c] + (rest[0] + sep + tail);
    }
  }

  /** The pieces are cut exactly at the separator runs: joined with commas
      they give the text with every run of newlines and commas made one
      comma. As no piece holds a separator, this fixes the pieces. */
  lemma {:induction false} SplitRunsJoin(s: string)
    ensures Join(SplitRuns(s), ",") == MarkRuns(s, false)
    decreases |s|
  {
    if s == [] {
    } else if IsSeparator(s[0]) {
      var skipped := SkipSeparators(s);
      assert skipped == SkipSeparators(s[1..]);
      SplitRunsJoin(skipped);
      var rest := SplitRuns(skipped);
      assert ([""] + rest)[1..] == rest;
      assert Join(SplitRuns(s), ",") == "" + "," + Join(rest, ",");
      MarkRunsSkips(s[1..]);
      assert MarkRuns(skipped, true) == MarkRuns(skipped, false);
    } else {
      SplitRunsJoin(s[1..]);
      JoinGrowsFirst(s[0], SplitRuns(s[1..]), ",");
    }
  }

  /** `.map(s => s.trim()).filter(Boolean)`. */
  function TrimmedNonEmpty(pieces: seq<string>): seq<string> {
    if pieces == [] then []
    else
      var t := Trim(pieces[0]);
      (if t == "" then [] else [t]) + TrimmedNonEmpty(pieces[1..])
  }

  /** Not empty, and no white space at either end. */
  predicate IsTrimmedWord(t: string) {
    t != "" && !IsSpace(t[0]) && !IsSpace(t[|t| - 1])
  }

  predicate AllTrimmedWords(parts: seq<string>) {
    forall k | 0 <= k < |parts| :: IsTrimmedWord(parts[k])
  }

  lemma AllTrimmedWordsCons(t: string, rest: seq<string>)
    requires IsTrimmedWord(t) && AllTrimmedWords(rest)
    ensures AllTrimmedWords([t] + rest)
  {
    var r := [t] + rest;
    forall k | 0 <= k < |r| ensures IsTrimmedWord(r[k]) {
      if k > 0 {
        assert r[k] == rest[k - 1];
      }
    }
  }

  /** Every part is a trimmed, non-empty piece, and there are no more parts
      than pieces. */
  lemma {:induction false} TrimmedNonEmptyWords(pieces: seq<string>)
    ensures |TrimmedNonEmpty(pieces)| <= |pieces|
    ensures AllTrimmedWords(TrimmedNonEmpty(pieces))
  {
    if pieces != [] {
      TrimmedNonEmptyWords(pieces[1..]);
      var t := Trim(pieces[0]);
      var rest := TrimmedNonEmpty(pieces[1..]);
      if t != "" {
        assert TrimmedNonEmpty(pieces) == [t] + rest;
        AllTrimmedWordsCons(t, rest);
      } else {
        assert TrimmedNonEmpty(pieces) == rest;
      }
    }
  }

  /** The parts of a pasted text. */
  function PasteParts(pasted: string): seq<string> {
    TrimmedNonEmpty(SplitRuns(pasted))
  }

  /** The paste loop as written: each part is whitespace-collapsed and pushed
      unless a tag equal to it ignoring case is already in the growing list;
      after each part the loop stops once the list holds `maxTags` tags. */
  function PasteFold(next: seq<string>, parts: seq<string>, maxTags: int): seq<string>
    decreases |parts|
  {
    if parts == [] then next
    else
      var norm := Collapse(parts[0]);
      var pushed := if HasTagIgnoringCase(next, norm) then next else next + [norm];
      if |pushed| >= maxTags then pushed else PasteFold(pushed, parts[1..], maxTags)
  }

  /** `onPaste`: an empty paste or one without parts changes nothing;
      otherwise the folded list is handed on and the text cleared. */
  function Paste(f: Field, pasted: string, maxTags: int): Field {
    var parts := PasteParts(pasted);
    if pasted == "" || parts == [] then f else Field(PasteFold(f.tags, parts, maxTags), "")
  }

  method OnPaste(f: Field, pasted: string, maxTags: int) returns (r: Field)
    ensures r == Paste(f, pasted, maxTags)
  {
    if pasted == "" {
      return f;
    }
    var parts := PasteParts(pasted);
    if |parts| == 0 {
      return f;
    }
    var next := f.tags;
    for i := 0 to |parts|
      invariant PasteFold(f.tags, parts, maxTags) == PasteFold(next, parts[i..], maxTags)
    {
      ghost var before := next;
      var norm := Collapse(parts[i]);
      if !HasTagIgnoringCase(next, norm) {
        next := next + [norm];
      }
      assert parts[i..][1..] == parts[i + 1..];
      if |next| >= maxTags {
        assert PasteFold(before, parts[i..], maxTags) == next;
        break;
      }
    }
    r := Field(next, "");
  }

  /** The paste keeps the list as a prefix and appends at most one tag per
      part. */
  lemma {:induction false} PasteFoldKeepsPrefix(next: seq<string>, parts: seq<string>, maxTags: int)
    ensures next <= PasteFold(next, parts, maxTags)
    ensures |PasteFold(next, parts, maxTags)| - |next| <= |parts|
    decreases |parts|
  {
    if parts != [] {
      var norm := Collapse(parts[0]);
      var pushed := if HasTagIgnoringCase(next, norm) then next else next + [norm];
      PasteFoldKeepsPrefix(pushed, parts[1..], maxTags);
    }
  }

  /** Every appended tag is a whitespace-collapsed part. */
  lemma {:induction false} PasteFoldAppendsParts(next: seq<string>, parts: seq<string>, maxTags: int)
    ensures var r := PasteFold(next, parts, maxTags);
      forall k | |next| <= k < |r| :: exists j | 0 <= j < |parts| :: r[k] == Collapse(parts[j])
    decreases |parts|
  {
    if parts != [] {
      var norm := Collapse(parts[0]);
      var pushed := if HasTagIgnoringCase(next, norm) then next else next + [norm];
      PasteFoldAppendsParts(pushed, parts[1..], maxTags);
      PasteFoldKeepsPrefix(pushed, parts[1..], maxTags);
      var r := PasteFold(next, parts, maxTags);
      forall k | |next| <= k < |r|
        ensures exists j | 0 <= j < |parts| :: r[k] == Collapse(parts[j])
      {
        if k < |pushed| {
          assert r[k] == pushed[k] == Collapse(parts[0]);
        } else {
          var j :| 0 <= j < |parts[1..]| && r[k] == Collapse(parts[1..][j]);
          assert r[k] == Collapse(parts[j + 1]);
        }
      }
    }
  }

  /** Every appended tag is new ignoring case in the list grown so far. */
  lemma {:induction false} PasteFoldAppendsNewTags(next: seq<string>, parts: seq<string>, maxTags: int)
    ensures var r := PasteFold(next, parts, maxTags);
      forall k | |next| <= k < |r| :: forall i | 0 <= i < k :: Lower(r[i]) != Lower(r[k])
    decreases |parts|
  {
    if parts != [] {
      var norm := Collapse(parts[0]);
      var pushed := if HasTagIgnoringCase(next, norm) then next else next + [norm];
      PasteFoldAppendsNewTags(pushed, parts[1..], maxTags);
      PasteFoldKeepsPrefix(pushed, parts[1..], maxTags);
      var r := PasteFold(next, parts, maxTags);
      forall k, i | |next| <= k < |r| && 0 <= i < k ensures Lower(r[i]) != Lower(r[k]) {
        if k < |pushed| {
          assert r[k] == pushed[k] == norm;
          assert r[i] == next[i];
        }
      }
    }
  }

  /** A tag found in a list is found in every list that extends it. */
  lemma HasTagExtends(a: seq<string>, b: seq<string>, t: string)
    requires a <= b && HasTagIgnoringCase(a, t)
    ensures HasTagIgnoringCase(b, t)
  {
    var i :| 0 <= i < |a| && Lower(a[i]) == Lower(t);
    assert b[i] == a[i];
  }

  /** Every collapsed part is a tag of the list, ignoring case. */
  predicate HoldsEveryPart(tags: seq<string>, parts: seq<string>) {
    forall j | 0 <= j < |parts| :: HasTagIgnoringCase(tags, Collapse(parts[j]))
  }

  lemma HoldsEveryPartCons(tags: seq<string>, parts: seq<string>)
    requires parts != [] && HasTagIgnoringCase(tags, Collapse(parts[0]))
    requires HoldsEveryPart(tags, parts[1..])
    ensures HoldsEveryPart(tags, parts)
  {
    forall j | 0 <= j < |parts| ensures HasTagIgnoringCase(tags, Collapse(parts[j])) {
      if j > 0 {
        assert parts[j] == parts[1..][j - 1];
      }
    }
  }

  /** Unless the loop stopped at `maxTags`, every part ends up in the list,
      ignoring case: pushed by the loop or there already. */
  lemma {:induction false} PasteFoldAddsEveryPart(next: seq<string>, parts: seq<string>, maxTags: int)
    ensures var r := PasteFold(next, parts, maxTags);
      |r| < maxTags ==> HoldsEveryPart(r, parts)
    decreases |parts|
  {
    if parts != [] {
      var norm := Collapse(parts[0]);
      var pushed := if HasTagIgnoringCase(next, norm) then next else next + [norm];
      assert HasTagIgnoringCase(pushed, norm) by {
        if !HasTagIgnoringCase(next, norm) {
          assert pushed[|next|] == norm;
        }
      }
      if |pushed| < maxTags {
        var r := PasteFold(pushed, parts[1..], maxTags);
        assert PasteFold(next, parts, maxTags) == r;
        PasteFoldAddsEveryPart(pushed, parts[1..], maxTags);
        PasteFoldKeepsPrefix(pushed, parts[1..], maxTags);
        HasTagExtends(pushed, r, norm);
        if |r| < maxTags {
          HoldsEveryPartCons(r, parts);
        }
      }
    }
  }

  /** With distinct tags going in, the pasted list has distinct tags. */
  lemma PasteKeepsDistinct(next: seq<string>, parts: seq<string>, maxTags: int)
    requires DistinctIgnoringCase(next)
    ensures DistinctIgnoringCase(PasteFold(next, parts, maxTags))
  {
    PasteFoldAppendsNewTags(next, parts, maxTags);
    PasteFoldKeepsPrefix(next, parts, maxTags);
    var r := PasteFold(next, parts, maxTags);
    forall i, j | 0 <= i < j < |r| ensures Lower(r[i]) != Lower(r[j]) {
      if j < |next| {
        assert r[i] == next[i] && r[j] == next[j];
      }
    }
  }

  /** Pasting into a list shorter than `maxTags` yields at most `maxTags` tags. */
  lemma {:induction false} PasteFoldBound(next: seq<string>, parts: seq<string>, maxTags: int)
    requires |next| < maxTags
    ensures |PasteFold(next, parts, maxTags)| <= maxTags
    decreases |parts|
  {
    if parts != [] {
      var norm := Collapse(parts[0]);
      var pushed := if HasTagIgnoringCase(next, norm) then next else next + [norm];
      if |pushed| < maxTags {
        PasteFoldBound(pushed, parts[1..], maxTags);
      }
    }
  }

  /** The bound is checked only after a push, so a list that already holds
      `maxTags` tags still gains one: one tag allowed, one held, "b" pasted,
      two tags result. */
  lemma PasteOvershootsFullList()
    ensures Paste(Field(["a"], ""), "b", 1).tags == ["a", "b"]
  {
    PastePartsOfWord();
    CollapseWithoutSpace("b");
    assert Lower("a")[0] != Lower("b")[0];
    assert !HasTagIgnoringCase(["a"], "b");
    assert PasteFold(["a"], ["b"], 1) == ["a", "b"];
  }

  lemma PastePartsOfWord()
    ensures PasteParts("b") == ["b"]
  {
    SplitRunsOfPiece("b");
    TrimOfTrimmed("b");
    assert ["b"][1..] == [];
    assert TrimmedNonEmpty(["b"]) == ["b"] + TrimmedNonEmpty(["b"][1..]);
  }

  /** The paste loop with the bound checked before each push, as `addTag`
      checks it. */
  function PasteFoldBounded(next: seq<string>, parts: seq<string>, maxTags: int): seq<string>
    decreases |parts|
  {
    if parts == [] || |next| >= maxTags then next
    else
      var norm := Collapse(parts[0]);
      PasteFoldBounded(if HasTagIgnoringCase(next, norm) then next else next + [norm], parts[1..], maxTags)
  }

  function PasteBounded(f: Field, pasted: string, maxTags: int): Field {
    var parts := PasteParts(pasted);
    if pasted == "" || parts == [] then f else Field(PasteFoldBounded(f.tags, parts, maxTags), "")
  }

  /** The bounded paste never takes a list past `maxTags`, leaves a full list
      as it is, and agrees with the loop as written on lists below the bound. */
  lemma {:induction false} PasteFoldBoundedCorrect(next: seq<string>, parts: seq<string>, maxTags: int)
    ensures |next| >= maxTags ==> PasteFoldBounded(next, parts, maxTags) == next
    ensures |next| <= maxTags ==> |PasteFoldBounded(next, parts, maxTags)| <= maxTags
    ensures |next| < maxTags ==> PasteFoldBounded(next, parts, maxTags) == PasteFold(next, parts, maxTags)
    decreases |parts|
  {
    if parts != [] && |next| < maxTags {
      var norm := Collapse(parts[0]);
      var pushed := if HasTagIgnoringCase(next, norm) then next else next + [norm];
      PasteFoldBoundedCorrect(pushed, parts[1..], maxTags);
    }
  }

  lemma PasteBoundedKeepsBound(f: Field, pasted: string, maxTags: int)
    requires |f.tags| <= maxTags
    ensures |PasteBounded(f, pasted, maxTags).tags| <= maxTags
  {
    PasteFoldBoundedCorrect(f.tags, PasteParts(pasted), maxTags);
  }
}
