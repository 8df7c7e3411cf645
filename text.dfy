/** The Python string operations the planner and the memory rely on:
    `str.strip()`, `str.lower()`, `in` on strings, `str.split(sep)`,
    `str.replace(old, "")` and `str.split()` with no argument. */
module Text {
  import opened Wrappers
  import Ranking

  /** `str.isspace()` on one character: the characters Python's `strip()`
      and `split()` treat as whitespace. */
  predicate IsSpace(c: char) {
    || ('\t' <= c <= '\r')
    || ('\U{1c}' <= c <= '\U{1f}')
    || c == ' '
    || c == '\U{85}'
    || c == '\U{a0}'
    || c == '\U{1680}'
    || ('\U{2000}' <= c <= '\U{200a}')
    || c == '\U{2028}'
    || c == '\U{2029}'
    || c == '\U{202f}'
    || c == '\U{205f}'
    || c == '\U{3000}'
  }

  predicate NoSpace(w: string) {
    forall k :: 0 <= k < |w| ==> !IsSpace(w[k])
  }

  // ---------------------------------------------------------------- strip

  /** `s.lstrip()`: the suffix left after the leading whitespace. */
  function TrimStart(s: string): (r: string)
    ensures |r| <= |s| && r == s[|s| - |r|..]
    ensures r == [] || !IsSpace(r[0])
    ensures forall k :: 0 <= k < |s| - |r| ==> IsSpace(s[k])
  {
    if |s| > 0 && IsSpace(s[0]) then TrimStart(s[1..]) else s
  }

  /** `s.rstrip()`: the prefix left before the trailing whitespace. */
  function TrimEnd(s: string): (r: string)
    ensures |r| <= |s| && r == s[..|r|]
    ensures r == [] || !IsSpace(r[|r| - 1])
    ensures forall k :: |r| <= k < |s| ==> IsSpace(s[k])
  {
    if |s| > 0 && IsSpace(s[|s| - 1]) then TrimEnd(s[..|s| - 1]) else s
  }

  /** `s.strip()`. */
  function Strip(s: string): (r: string)
    ensures r == [] || (!IsSpace(r[0]) && !IsSpace(r[|r| - 1]))
  {
    TrimEnd(TrimStart(s))
  }

  /** `lstrip()` removes exactly the whitespace before position `i` when
      `s[i]` is not whitespace. */
  lemma {:induction false} TrimStartAt(s: string, i: nat)
    requires i <= |s|
    requires forall k :: 0 <= k < i ==> IsSpace(s[k])
    requires i < |s| ==> !IsSpace(s[i])
    ensures TrimStart(s) == s[i..]
    decreases i
  {
    if i > 0 {
      TrimStartAt(s[1..], i - 1);
      assert s[1..][i - 1..] == s[i..];
    }
  }

  /** `rstrip()` removes exactly the whitespace from position `j` on when
      `s[j - 1]` is not whitespace. */
  lemma {:induction false} TrimEndAt(s: string, j: nat)
    requires j <= |s|
    requires forall k :: j <= k < |s| ==> IsSpace(s[k])
    requires j > 0 ==> !IsSpace(s[j - 1])
    ensures TrimEnd(s) == s[..j]
    decreases |s| - j
  {
    if j < |s| {
      var p := s[..|s| - 1];
      TrimEndAt(p, j);
      assert p[..j] == s[..j];
    }
  }

  /** `rstrip()` of a suffix `s[i..]` stops before the trailing whitespace
      that starts at `j`. */
  lemma {:induction false} TrimEndOfSuffix(s: string, i: nat, j: nat)
    requires i < j <= |s|
    requires forall k :: j <= k < |s| ==> IsSpace(s[k])
    requires !IsSpace(s[j - 1])
    ensures TrimEnd(s[i..]) == s[i..j]
  {
    var t := s[i..];
    forall k | j - i <= k < |t| ensures IsSpace(t[k]) {
      assert t[k] == s[i + k];
    }
    assert t[j - i - 1] == s[j - 1];
    TrimEndAt(t, j - i);
  }

  /** Any slice of `s` that drops only whitespace on both sides and keeps no
      whitespace at its own ends is what `strip()` returns. */
  lemma {:induction false} StripIsTrimmedSlice(s: string, i: nat, j: nat)
    requires i <= j <= |s|
    requires forall k :: 0 <= k < i ==> IsSpace(s[k])
    requires forall k :: j <= k < |s| ==> IsSpace(s[k])
    requires i < j ==> !IsSpace(s[i]) && !IsSpace(s[j - 1])
    ensures Strip(s) == s[i..j]
  {
    if i < j {
      TrimStartAt(s, i);
      TrimEndOfSuffix(s, i, j);
    } else {
      TrimStartAt(s, |s|);
      assert s[|s|..] == [];
    }
  }

  // ---------------------------------------------------------------- lower

  /** `str.lower()` on one character, for ASCII letters. */
  function LowerChar(c: char): char {
    if 'A' <= c <= 'Z' then (c as int + 32) as char else c
  }

  /** `s.lower()`, for text whose letters are ASCII. */
  function Lower(s: string): (r: string)
    ensures |r| == |s|
  {
    seq(|s|, k requires 0 <= k < |s| => LowerChar(s[k]))
  }

  /** Lowercasing works character by character, so it distributes over
      concatenation. */
  lemma LowerAppend(a: string, b: string)
    ensures Lower(a + b) == Lower(a) + Lower(b)
  {
    var l := Lower(a + b);
    forall k | 0 <= k < |l| ensures l[k] == (Lower(a) + Lower(b))[k] {
      if k < |a| {
        assert (a + b)[k] == a[k];
      } else {
        assert (a + b)[k] == b[k - |a|];
      }
    }
  }

  // ---------------------------------------------------------------- find

  /** `pat` occurs in `s` starting at index `i`. */
  predicate OccursAt(pat: string, s: string, i: int) {
    0 <= i && i + |pat| <= |s| && s[i..i + |pat|] == pat
  }

  /** `s.find(pat, from)`: the first occurrence at or after `from`. */
  function FindFrom(pat: string, s: string, from: nat): (r: Option<nat>)
    ensures r.Some? ==> from <= r.value && OccursAt(pat, s, r.value)
    ensures r.Some? ==> forall j :: from <= j < r.value ==> !OccursAt(pat, s, j)
    ensures r.None? ==> forall j :: from <= j ==> !OccursAt(pat, s, j)
    decreases |s| - from
  {
    if from + |pat| > |s| then None
    else if s[from..from + |pat|] == pat then Some(from)
    else FindFrom(pat, s, from + 1)
  }

  /** `s.find(pat)` as an option. */
  function Find(pat: string, s: string): Option<nat> {
    FindFrom(pat, s, 0)
  }

  /** Python's `pat in s`. */
  predicate Contains(s: string, pat: string) {
    Find(pat, s).Some?
  }

  /** `pat in s` holds exactly when `pat` occurs somewhere in `s`. */
  lemma ContainsIff(s: string, pat: string)
    ensures Contains(s, pat) <==> exists i :: OccursAt(pat, s, i)
  {
    if Contains(s, pat) {
      assert OccursAt(pat, s, Find(pat, s).value);
    }
  }

  /** An occurrence at `i` is enough to show `pat in s`. */
  lemma ContainsAt(s: string, pat: string, i: int)
    requires OccursAt(pat, s, i)
    ensures Contains(s, pat)
  {
    ContainsIff(s, pat);
  }

  /** The first occurrence is found wherever it is. */
  lemma FindFirstAt(pat: string, s: string, n: nat)
    requires OccursAt(pat, s, n)
    requires forall j :: 0 <= j < n ==> !OccursAt(pat, s, j)
    ensures Find(pat, s) == Some(n)
  {
  }

  /** `pat` occurs at `i` when the characters there match it one by one. */
  lemma OccursAtByChars(pat: string, s: string, i: nat)
    requires i + |pat| <= |s|
    requires forall k :: 0 <= k < |pat| ==> s[i + k] == pat[k]
    ensures OccursAt(pat, s, i)
  {
    assert s[i..i + |pat|] == pat;
  }

  // ---------------------------------------------------------------- split

  /** `s.split(sep)` for a non-empty separator. */
  function Split(s: string, sep: string): (parts: seq<string>)
    requires |sep| > 0
    ensures |parts| >= 1
    ensures Contains(s, sep) ==> |parts| >= 2
    ensures forall k :: 0 <= k < |parts| ==> !Contains(parts[k], sep)
    decreases |s|
  {
    match Find(sep, s)
    case None => [s]
    case Some(i) =>
      PrefixBeforeFirst(s, sep, i);
      [s[..i]] + Split(s[i + |sep|..], sep)
  }

  /** The text before the first occurrence of `sep` does not contain it. */
  lemma PrefixBeforeFirst(s: string, sep: string, i: nat)
    requires |sep| > 0 && Find(sep, s) == Some(i)
    ensures !Contains(s[..i], sep)
  {
    var p := s[..i];
    forall j | OccursAt(sep, p, j) ensures OccursAt(sep, s, j) && j < i {
      assert p[j..j + |sep|] == s[j..j + |sep|];
    }
  }

  /** `sep.join(parts)`. */
  function Join(parts: seq<string>, sep: string): string {
    if |parts| == 0 then ""
    else if |parts| == 1 then parts[0]
    else parts[0] + sep + Join(parts[1..], sep)
  }

  /** Splitting and joining with the same separator gives the text back. */
  lemma {:induction false} SplitJoin(s: string, sep: string)
    requires |sep| > 0
    ensures Join(Split(s, sep), sep) == s
    decreases |s|
  {
    match Find(sep, s)
    case None =>
    case Some(i) =>
      var rest := s[i + |sep|..];
      SplitJoin(rest, sep);
      assert s[i..i + |sep|] == sep;
      assert s == s[..i] + sep + rest;
  }

  // ---------------------------------------------------------------- replace

  /** `s.replace(pat, "")`: every occurrence of `pat`, scanned left to right
      without overlap, is deleted. */
  function RemoveAll(s: string, pat: string): string
    requires |pat| > 0
    decreases |s|
  {
    if |s| < |pat| then s
    else if s[..|pat|] == pat then RemoveAll(s[|pat|..], pat)
    else [s[0]] + RemoveAll(s[1..], pat)
  }

  /** A prefix in which `pat` does not start is copied unchanged. */
  lemma {:induction false} RemoveAllSkips(s: string, pat: string, i: nat)
    requires |pat| > 0 && i <= |s|
    requires forall j :: 0 <= j < i ==> !OccursAt(pat, s, j)
    ensures RemoveAll(s, pat) == s[..i] + RemoveAll(s[i..], pat)
    decreases i
  {
    if i > 0 {
      if |s| < |pat| {
        assert RemoveAll(s[i..], pat) == s[i..];
        assert s == s[..i] + s[i..];
      } else {
        assert !OccursAt(pat, s, 0);
        assert s[..|pat|] != pat;
        var t := s[1..];
        forall j | 0 <= j < i - 1 ensures !OccursAt(pat, t, j) {
          assert !OccursAt(pat, s, j + 1);
          if j + |pat| <= |t| {
            assert t[j..j + |pat|] == s[j + 1..j + 1 + |pat|];
          }
        }
        RemoveAllSkips(t, pat, i - 1);
        assert t[i - 1..] == s[i..];
        assert [s[0]] + t[..i - 1] == s[..i];
      }
    }
  }

  /** Text that does not contain `pat` is left as it is. */
  lemma RemoveAllAbsent(s: string, pat: string)
    requires |pat| > 0 && !Contains(s, pat)
    ensures RemoveAll(s, pat) == s
  {
    RemoveAllSkips(s, pat, |s|);
    assert s[|s|..] == [];
  }

  /** Text without the first character of `pat` does not contain `pat`. */
  lemma LacksFirstChar(s: string, pat: string)
    requires |pat| > 0
    requires forall k :: 0 <= k < |s| ==> s[k] != pat[0]
    ensures !Contains(s, pat)
  {
    forall i | 0 <= i && i + |pat| <= |s| ensures !OccursAt(pat, s, i) {
      assert s[i..i + |pat|][0] == s[i];
    }
  }

  /** `c` does not occur in `s`. */
  predicate Lacks(s: string, c: char) {
    forall k :: 0 <= k < |s| ==> s[k] != c
  }

  /** Text lacking any one character of `pat` does not contain `pat`. */
  lemma LacksChar(s: string, pat: string, i: nat)
    requires i < |pat| && Lacks(s, pat[i])
    ensures !Contains(s, pat)
  {
    forall j | 0 <= j && j + |pat| <= |s| ensures !OccursAt(pat, s, j) {
      assert s[j..j + |pat|][i] == s[j + i];
    }
  }

  /** Text lacking a lower-case letter in both cases still lacks it once
      lowercased. */
  lemma LowerLacks(s: string, c: char)
    requires 'a' <= c <= 'z'
    requires Lacks(s, c) && Lacks(s, (c as int - 32) as char)
    ensures Lacks(Lower(s), c)
  {
  }

  /** An occurrence of `pat` after text without its first character is the
      first one removed; the text before it is copied. */
  lemma {:induction false} RemoveAllAfterPlain(a: string, pat: string, b: string)
    requires |pat| > 0
    requires forall k :: 0 <= k < |a| ==> a[k] != pat[0]
    ensures RemoveAll(a + pat + b, pat) == a + RemoveAll(b, pat)
  {
    var s := a + pat + b;
    forall j | 0 <= j < |a| ensures !OccursAt(pat, s, j) {
      if j + |pat| <= |s| {
        assert s[j..j + |pat|][0] == a[j];
      }
    }
    RemoveAllSkips(s, pat, |a|);
    var t := s[|a|..];
    assert s[..|a|] == a;
    assert t == pat + b;
    assert t[..|pat|] == pat && t[|pat|..] == b;
  }

  /** Python's identity `s.replace(pat, "") == "".join(s.split(pat))`. */
  lemma {:induction false} RemoveAllIsJoinOfSplit(s: string, pat: string)
    requires |pat| > 0
    ensures RemoveAll(s, pat) == Join(Split(s, pat), "")
    decreases |s|
  {
    match Find(pat, s)
    case None =>
      RemoveAllAbsent(s, pat);
    case Some(i) =>
      var rest := s[i + |pat|..];
      var tail := Split(rest, pat);
      assert Split(s, pat) == [s[..i]] + tail;
      RemoveAllAtFirst(s, pat, i);
      RemoveAllIsJoinOfSplit(rest, pat);
      JoinConsEmpty(s[..i], tail);
  }

  /** Removing from text whose first occurrence of `pat` is at `i` copies
      the text before it and drops the occurrence. */
  lemma RemoveAllAtFirst(s: string, pat: string, i: nat)
    requires |pat| > 0 && Find(pat, s) == Some(i)
    ensures RemoveAll(s, pat) == s[..i] + RemoveAll(s[i + |pat|..], pat)
  {
    RemoveAllSkips(s, pat, i);
    var from := s[i..];
    assert from[..|pat|] == pat;
    assert from[|pat|..] == s[i + |pat|..];
  }

  /** Joining with no separator puts the first part in front of the rest. */
  lemma JoinConsEmpty(x: string, tail: seq<string>)
    ensures Join([x] + tail, "") == x + Join(tail, "")
  {
    if |tail| > 0 {
      assert ([x] + tail)[1..] == tail;
    }
  }

  // ---------------------------------------------------------------- split()

  /** Length of the leading run of non-whitespace characters. */
  function WordLength(s: string): (n: nat)
    ensures n <= |s|
    ensures forall k :: 0 <= k < n ==> !IsSpace(s[k])
    ensures n == |s| || IsSpace(s[n])
  {
    if |s| == 0 || IsSpace(s[0]) then 0 else 1 + WordLength(s[1..])
  }

  /** `s.split()` with no separator: the maximal runs of non-whitespace
      characters, in order. */
  function Words(s: string): (ws: seq<string>)
    ensures forall w :: w in ws ==> |w| > 0 && NoSpace(w)
    decreases |s|
  {
    var t := TrimStart(s);
    if t == [] then []
    else
      var n := WordLength(t);
      assert n > 0 by {
        assert !IsSpace(t[0]);
      }
      var w := t[..n];
      assert NoSpace(w) by {
        forall k | 0 <= k < n ensures !IsSpace(w[k]) {
          assert w[k] == t[k];
        }
      }
      var rest := Words(t[n..]);
      var ws := [w] + rest;
      assert forall x :: x in ws ==> x == w || x in rest;
      ws
  }

  /** Text made of whitespace only. */
  predicate AllSpace(w: string) {
    forall k :: 0 <= k < |w| ==> IsSpace(w[k])
  }

  /** Slicing a concatenation inside its first part. */
  lemma ConcatSlices(t: string, z: string, n: nat)
    requires n <= |t|
    ensures (t + z)[..n] == t[..n] && (t + z)[n..] == t[n..] + z
  {
  }

  lemma ConcatAssoc(a: string, b: string, c: string)
    ensures a + b + c == a + (b + c)
  {
  }

  /** Blank text in front changes nothing for `lstrip()`. */
  lemma {:induction false} TrimStartOfBlank(x: string, z: string)
    requires AllSpace(x)
    ensures TrimStart(x + z) == TrimStart(z)
    decreases |x|
  {
    if x == [] {
      assert x + z == z;
    } else {
      ConcatSlices(x, z, 1);
      TrimStartOfBlank(x[1..], z);
    }
  }

  /** Text after a non-blank text is kept by `lstrip()`. */
  lemma {:induction false} TrimStartOfLonger(x: string, z: string)
    requires TrimStart(x) != []
    ensures TrimStart(x + z) == TrimStart(x) + z
    decreases |x|
  {
    ConcatSlices(x, z, 1);
    if IsSpace(x[0]) {
      TrimStartOfLonger(x[1..], z);
    }
  }

  /** Appending text that starts with whitespace, or appending after a word
      that already ended, leaves the first word as it was. */
  lemma {:induction false} WordLengthOfLonger(t: string, z: string)
    requires WordLength(t) < |t| || z == [] || IsSpace(z[0])
    ensures WordLength(t + z) == WordLength(t)
    decreases |t|
  {
    if t == [] {
      assert t + z == z;
    } else {
      ConcatSlices(t, z, 1);
      if !IsSpace(t[0]) {
        WordLengthOfLonger(t[1..], z);
      }
    }
  }

  /** Text that starts with whitespace keeps its words apart from what
      precedes it: the words of `x + z` are those of `x`, then those of `z`. */
  lemma {:induction false} WordsOfConcat(x: string, z: string)
    requires z == [] || IsSpace(z[0])
    ensures Words(x + z) == Words(x) + Words(z)
    decreases |x|
  {
    var t := TrimStart(x);
    if t == [] {
      TrimStartOfBlank(x, z);
    } else {
      var n := WordLength(t);
      TrimStartOfLonger(x, z);
      WordLengthOfLonger(t, z);
      ConcatSlices(t, z, n);
      WordsOfConcat(t[n..], z);
      WordsStep(x);
      WordsStep(x + z);
      Ranking.SeqAssoc([t[..n]], Words(t[n..]), Words(z));
    }
  }

  /** The first word of a non-blank text, then the words of the rest. */
  lemma WordsStep(s: string)
    requires TrimStart(s) != []
    ensures var t := TrimStart(s); var n := WordLength(t);
      Words(s) == [t[..n]] + Words(t[n..])
  {
  }

  /** Leading whitespace is ignored by `split()`. */
  lemma {:induction false} WordsOfLeadingBlank(w: string, y: string)
    requires AllSpace(w)
    ensures Words(w + y) == Words(y)
  {
    TrimStartOfBlank(w, y);
  }

  /** A non-empty run of whitespace separates words: the words of `x`,
      the run and `y` are the words of `x` followed by the words of `y`,
      whatever `x` and `y` are. */
  lemma {:induction false} WordsOfGap(x: string, w: string, y: string)
    requires |w| > 0 && AllSpace(w)
    ensures Words(x + w + y) == Words(x) + Words(y)
  {
    ConcatAssoc(x, w, y);
    WordsOfConcat(x, w + y);
    WordsOfLeadingBlank(w, y);
  }

  /** Trailing whitespace is ignored by `split()`. */
  lemma {:induction false} WordsOfTrailingBlank(x: string, w: string)
    requires AllSpace(w)
    ensures Words(x + w) == Words(x)
  {
    WordsOfConcat(x, w);
    WordsOfBlank(w);
    Ranking.AppendEmpty(Words(x));
  }

  /** Blank text has no words. */
  lemma {:induction false} WordsOfBlank(w: string)
    requires AllSpace(w)
    ensures Words(w) == []
  {
    TrimStartAt(w, |w|);
  }

  /** `split()` undoes `sep.join(ws)` for any non-empty whitespace separator
      when every word is non-empty and free of whitespace. */
  lemma {:induction false} WordsOfJoin(ws: seq<string>, sep: string)
    requires |ws| > 0 && |sep| > 0 && AllSpace(sep)
    requires forall k :: 0 <= k < |ws| ==> |ws[k]| > 0 && NoSpace(ws[k])
    ensures Words(Join(ws, sep)) == ws
  {
    if |ws| == 1 {
      WordsOfJoinOne(ws, sep);
    } else {
      WordsOfJoin(ws[1..], sep);
      WordsOfJoinCons(ws, sep);
    }
  }

  lemma {:induction false} WordsOfJoinOne(ws: seq<string>, sep: string)
    requires |ws| == 1 && |ws[0]| > 0 && NoSpace(ws[0])
    ensures Words(Join(ws, sep)) == ws
  {
    var w := ws[0];
    assert Join(ws, sep) == w;
    assert [w] == ws;
    WordsOfWord(w);
  }

  /** One more word in front of a joined text. */
  lemma {:induction false} WordsOfJoinCons(ws: seq<string>, sep: string)
    requires |ws| > 1 && |sep| > 0 && AllSpace(sep)
    requires |ws[0]| > 0 && NoSpace(ws[0])
    requires Words(Join(ws[1..], sep)) == ws[1..]
    ensures Words(Join(ws, sep)) == ws
  {
    var rest := Join(ws[1..], sep);
    assert Join(ws, sep) == ws[0] + sep + rest;
    WordsOfWord(ws[0]);
    WordsOfGap(ws[0], sep, rest);
    Ranking.HeadTail(ws);
  }

  /** Lowercasing never turns whitespace into a letter or back. */
  lemma {:induction false} LowerKeepsSpaces(s: string)
    ensures forall k :: 0 <= k < |s| ==> (IsSpace(Lower(s)[k]) <==> IsSpace(s[k]))
  {
  }

  /** Lowercasing a slice is slicing the lowercased text. */
  lemma {:induction false} LowerSplit(s: string, n: nat)
    requires n <= |s|
    ensures Lower(s)[..n] == Lower(s[..n]) && Lower(s)[n..] == Lower(s[n..])
  {
    assert s == s[..n] + s[n..];
    LowerAppend(s[..n], s[n..]);
  }

  lemma {:induction false} TrimStartOfLower(s: string)
    ensures TrimStart(Lower(s)) == Lower(TrimStart(s))
  {
    var l := Lower(s);
    var i := |s| - |TrimStart(s)|;
    LowerKeepsSpaces(s);
    TrimStartAt(l, i);
    LowerSplit(s, i);
  }

  lemma {:induction false} WordLengthOfLower(t: string)
    ensures WordLength(Lower(t)) == WordLength(t)
  {
    var n := WordLength(t);
    var l := Lower(t);
    LowerKeepsSpaces(t);
    if n < |t| {
      WordLengthOfRun(l, n);
    } else {
      WordLengthOfWord(l);
    }
  }

  /** `s.lower().split()` is `[w.lower() for w in s.split()]`: lowercasing
      moves no word boundary. */
  lemma {:induction false} WordsOfLower(s: string)
    ensures Words(Lower(s)) == Ranking.Map(Words(s), Lower)
    decreases |s|
  {
    var t := TrimStart(s);
    TrimStartOfLower(s);
    if t != [] {
      var n := WordLength(t);
      WordLengthOfLower(t);
      LowerSplit(t, n);
      WordsOfLower(t[n..]);
      Ranking.MapCons(t[..n], Words(t[n..]), Lower);
    }
  }

  lemma {:induction false} WordLengthOfRun(s: string, n: nat)
    requires n < |s| && IsSpace(s[n])
    requires forall k :: 0 <= k < n ==> !IsSpace(s[k])
    ensures WordLength(s) == n
    decreases n
  {
    if n > 0 {
      WordLengthOfRun(s[1..], n - 1);
    }
  }

  /** A single word splits into itself. */
  lemma {:induction false} WordsOfWord(w: string)
    requires NoSpace(w) && |w| > 0
    ensures Words(w) == [w]
  {
    assert TrimStart(w) == w by {
      assert !IsSpace(w[0]);
    }
    WordLengthOfWord(w);
    assert w[..|w|] == w;
    assert Words(w[|w|..]) == [] by {
      assert w[|w|..] == [];
    }
  }

  lemma {:induction false} WordLengthOfWord(s: string)
    requires NoSpace(s)
    ensures WordLength(s) == |s|
    decreases |s|
  {
    if |s| > 0 {
      WordLengthOfWord(s[1..]);
    }
  }
}
