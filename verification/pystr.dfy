/** The Python `str` and `list` operations the service relies on, with the
    semantics CPython gives them: `strip`, `find`, `rfind`, `split(sep)`,
    `split()` on whitespace, `join`, `startswith`, slicing with clamped
    indices, `replace(pat, "")` and ASCII `upper`. */
module PyStr {

  /** The characters `str.isspace()` accepts (and `strip()`/`split()` remove):
      ASCII 9..13, 28..31, space, and the Unicode separators CPython lists. */
  predicate IsSpace(c: char) {
    || c == ' '
    || ('\U{9}' <= c <= '\U{D}')
    || ('\U{1C}' <= c <= '\U{1F}')
    || c == '\U{85}' || c == '\U{A0}' || c == '\U{1680}'
    || ('\U{2000}' <= c <= '\U{200A}')
    || c == '\U{2028}' || c == '\U{2029}' || c == '\U{202F}'
    || c == '\U{205F}' || c == '\U{3000}'
  }

  /** `s.startswith(p)` */
  predicate StartsWith(s: string, p: string) {
    |p| <= |s| && s[..|p|] == p
  }

  /** `pat` occurs in `s` at index `i`. */
  predicate OccursAt(s: string, pat: string, i: int) {
    0 <= i && i + |pat| <= |s| && s[i..i + |pat|] == pat
  }

  /** `pat` occurs somewhere in `s` (Python's `pat in s`). */
  predicate Contains(s: string, pat: string) {
    FindSub(s, pat) >= 0
  }

  // ---------------------------------------------------------------------
  // strip

  /** `s.lstrip()`: drops exactly the leading whitespace. */
  function LStrip(s: string): (r: string)
    ensures |r| <= |s| && r == s[|s| - |r|..]
    ensures forall i :: 0 <= i < |s| - |r| ==> IsSpace(s[i])
    ensures r == [] || !IsSpace(r[0])
    decreases |s|
  {
    if |s| > 0 && IsSpace(s[0]) then LStrip(s[1..]) else s
  }

  /** `s.rstrip()`: drops exactly the trailing whitespace. */
  function RStrip(s: string): (r: string)
    ensures |r| <= |s| && r == s[..|r|]
    ensures forall i :: |r| <= i < |s| ==> IsSpace(s[i])
    ensures r == [] || !IsSpace(r[|r| - 1])
    decreases |s|
  {
    if |s| > 0 && IsSpace(s[|s| - 1]) then RStrip(s[..|s| - 1]) else s
  }

  /** `s.strip()` */
  function Strip(s: string): (r: string)
    ensures |r| <= |s|
    ensures r == [] || (!IsSpace(r[0]) && !IsSpace(r[|r| - 1]))
  {
    RStrip(LStrip(s))
  }

  /** A string that neither starts nor ends with whitespace is its own strip. */
  lemma StripFixed(s: string)
    requires s == [] || (!IsSpace(s[0]) && !IsSpace(s[|s| - 1]))
    ensures Strip(s) == s
  {
  }

  /** Stripping twice is stripping once. */
  lemma StripIdempotent(s: string)
    ensures Strip(Strip(s)) == Strip(s)
  {
    StripFixed(Strip(s));
  }

  /** Trailing whitespace after a non-space character is all `rstrip` sees. */
  lemma RStripAppend(a: string, b: string)
    requires |a| > 0 && !IsSpace(a[|a| - 1])
    ensures RStrip(a + b) == a + RStrip(b)
    decreases |b|
  {
    if |b| > 0 && IsSpace(b[|b| - 1]) {
      assert (a + b)[..|a + b| - 1] == a + b[..|b| - 1];
      RStripAppend(a, b[..|b| - 1]);
    }
  }

  // ---------------------------------------------------------------------
  // find / rfind

  /** `s.find(c)`: the first index of `c`, or -1 when `c` does not occur. */
  function Find(s: string, c: char): (r: int)
    ensures -1 <= r < |s|
    ensures r == -1 <==> c !in s
    ensures r >= 0 ==> s[r] == c && c !in s[..r]
  {
    if |s| == 0 then -1
    else if s[0] == c then 0
    else
      var k := Find(s[1..], c);
      assert s == [s[0]] + s[1..];
      if k < 0 then -1
      else
        assert s[..k + 1] == [s[0]] + s[1..][..k];
        k + 1
  }

  /** `s.rfind(c)`: the last index of `c`, or -1 when `c` does not occur. */
  function RFind(s: string, c: char): (r: int)
    ensures -1 <= r < |s|
    ensures r == -1 <==> c !in s
    ensures r >= 0 ==> s[r] == c && c !in s[r + 1..]
  {
    if |s| == 0 then -1
    else if s[|s| - 1] == c then |s| - 1
    else
      assert s == s[..|s| - 1] + [s[|s| - 1]];
      RFind(s[..|s| - 1], c)
  }

  /** `s.find(pat)`: the first index where `pat` occurs, or -1. */
  function FindSub(s: string, pat: string): (r: int)
    ensures r == -1 || OccursAt(s, pat, r)
    ensures forall i :: 0 <= i && (r == -1 || i < r) ==> !OccursAt(s, pat, i)
    decreases |s|
  {
    if |s| < |pat| then -1
    else if s[..|pat|] == pat then 0
    else
      var k := FindSub(s[1..], pat);
      ShiftOccurs(s, pat);
      if k < 0 then -1 else k + 1
  }

  /** An occurrence in `s[1..]` is an occurrence in `s`, one place later. */
  lemma ShiftOccurs(s: string, pat: string)
    requires |s| > 0
    ensures forall i :: 1 <= i ==> (OccursAt(s, pat, i) <==> OccursAt(s[1..], pat, i - 1))
  {
    forall i | 1 <= i
      ensures OccursAt(s, pat, i) <==> OccursAt(s[1..], pat, i - 1)
    {
      if i + |pat| <= |s| {
        assert s[1..][i - 1..i - 1 + |pat|] == s[i..i + |pat|];
      }
    }
  }

  // ---------------------------------------------------------------------
  // split / join

  /** `s.split(sep)` for a non-empty separator: the pieces between the
      non-overlapping occurrences of `sep`, scanned left to right. */
  function Split(s: string, sep: string): (r: seq<string>)
    requires |sep| > 0
    ensures |r| >= 1
    ensures forall i :: 0 <= i < |r| ==> !Contains(r[i], sep)
    decreases |s|
  {
    var k := FindSub(s, sep);
    if k < 0 then [s]
    else
      BeforeFirstOccurrence(s, sep);
      [s[..k]] + Split(s[k + |sep|..], sep)
  }

  /** The text before the first occurrence of `pat` holds no occurrence of it. */
  lemma BeforeFirstOccurrence(s: string, pat: string)
    requires |pat| > 0 && FindSub(s, pat) >= 0
    ensures !Contains(s[..FindSub(s, pat)], pat)
  {
    var k := FindSub(s, pat);
    forall i | OccursAt(s[..k], pat, i)
      ensures false
    {
      assert s[..k][i..i + |pat|] == s[i..i + |pat|];
      assert OccursAt(s, pat, i);
    }
  }

  /** A suffix of a text free of `pat` is free of `pat`. */
  lemma SuffixAbsent(s: string, pat: string, j: nat)
    requires j <= |s| && !Contains(s, pat)
    ensures !Contains(s[j..], pat)
  {
    forall i | OccursAt(s[j..], pat, i)
      ensures false
    {
      assert s[j..][i..i + |pat|] == s[i + j..i + j + |pat|];
      assert OccursAt(s, pat, i + j);
    }
  }

  /** `sep.join(parts)` */
  function Join(parts: seq<string>, sep: string): string
  {
    if |parts| == 0 then ""
    else if |parts| == 1 then parts[0]
    else parts[0] + sep + Join(parts[1..], sep)
  }

  /** A join starts with its first part and ends with its last. */
  lemma {:induction false} JoinEnds(parts: seq<string>, sep: string)
    requires |parts| > 0
    ensures var j := Join(parts, sep);
      && |parts[0]| <= |j| && j[..|parts[0]|] == parts[0]
      && |parts[|parts| - 1]| <= |j| && j[|j| - |parts[|parts| - 1]|..] == parts[|parts| - 1]
    decreases |parts|
  {
    if |parts| > 1 {
      var rest := Join(parts[1..], sep);
      JoinEnds(parts[1..], sep);
      assert Join(parts, sep) == parts[0] + (sep + rest);
      assert parts[1..][|parts[1..]| - 1] == parts[|parts| - 1];
    }
  }

  /** A join of parts whose first and last are non-empty begins with the
      first part's first character and ends with the last part's last. */
  lemma JoinOuterChars(parts: seq<string>, sep: string)
    requires |parts| > 0 && |parts[0]| > 0 && |parts[|parts| - 1]| > 0
    ensures var j := Join(parts, sep);
      |j| > 0 && j[0] == parts[0][0] && j[|j| - 1] == parts[|parts| - 1][|parts[|parts| - 1]| - 1]
  {
    var j := Join(parts, sep);
    var last := parts[|parts| - 1];
    JoinEnds(parts, sep);
    assert j[0] == j[..|parts[0]|][0];
    assert j[|j| - 1] == j[|j| - |last|..][|last| - 1];
  }

  /** Joining the pieces of a split with the same separator gives back the text. */
  lemma {:induction false} JoinSplit(s: string, sep: string)
    requires |sep| > 0
    ensures Join(Split(s, sep), sep) == s
    decreases |s|
  {
    var k := FindSub(s, sep);
    if k >= 0 {
      var rest := s[k + |sep|..];
      var tail := Split(rest, sep);
      JoinSplit(rest, sep);
      assert Split(s, sep) == [s[..k]] + tail;
      assert ([s[..k]] + tail)[1..] == tail;
      assert s == s[..k] + sep + rest;
    }
  }

  /** A text that starts with the separator splits into an empty first piece,
      so the piece at index 1 always exists. */
  lemma SplitLeadingSep(x: string, sep: string)
    requires |sep| > 0
    ensures Split(sep + x, sep) == [""] + Split(x, sep)
  {
    assert (sep + x)[..|sep|] == sep;
    assert (sep + x)[|sep|..] == x;
  }

  /** When the separator does not occur, splitting yields the text itself. */
  lemma SplitNoSep(s: string, sep: string)
    requires |sep| > 0 && FindSub(s, sep) == -1
    ensures Split(s, sep) == [s]
  {
  }

  /** The piece before the first separator, when that separator sits at `|a|`. */
  lemma SplitAtFirst(a: string, sep: string, b: string)
    requires |sep| > 0
    requires FindSub(a + sep + b, sep) == |a|
    ensures Split(a + sep + b, sep) == [a] + Split(b, sep)
  {
    var s := a + sep + b;
    assert s[..|a|] == a;
    assert s[|a| + |sep|..] == b;
  }

  /** For a one-character separator, a part with no such character is
      recovered exactly: the last piece of `a + [c] + b` is `b`. */
  lemma {:induction false} SplitLastPiece(a: string, c: char, b: string)
    requires c !in b
    ensures var p := Split(a + [c] + b, [c]); p[|p| - 1] == b
    decreases |a|
  {
    var s := a + [c] + b;
    var k := FindSub(s, [c]);
    assert OccursAt(s, [c], |a|);
    assert 0 <= k <= |a|;
    var rest := s[k + 1..];
    if k == |a| {
      assert rest == b;
      NoCharNoSub(b, c);
      SplitNoSep(b, [c]);
    } else {
      assert rest == a[k + 1..] + [c] + b;
      SplitLastPiece(a[k + 1..], c, b);
    }
  }

  /** A text without `c` contains no occurrence of `[c]`. */
  lemma NoCharNoSub(s: string, c: char)
    requires c !in s
    ensures FindSub(s, [c]) == -1
  {
    forall i | 0 <= i < |s|
      ensures !OccursAt(s, [c], i)
    {
      assert s[i..i + 1] == [s[i]];
    }
  }

  /** Splitting lines joined by a one-character separator gives the lines back,
      provided no line contains that character. */
  lemma {:induction false} SplitJoin(parts: seq<string>, c: char)
    requires |parts| >= 1
    requires forall i :: 0 <= i < |parts| ==> c !in parts[i]
    ensures Split(Join(parts, [c]), [c]) == parts
    decreases |parts|
  {
    if |parts| == 1 {
      NoCharNoSub(parts[0], c);
    } else {
      var rest := Join(parts[1..], [c]);
      var s := parts[0] + [c] + rest;
      assert Join(parts, [c]) == s;
      assert OccursAt(s, [c], |parts[0]|);
      forall i | 0 <= i < |parts[0]|
        ensures !OccursAt(s, [c], i)
      {
        assert s[i..i + 1] == [parts[0][i]];
      }
      SplitAtFirst(parts[0], [c], rest);
      SplitJoin(parts[1..], c);
    }
  }

  /** `s.split("/")[-1]`: the text after the last slash. */
  function LastSegment(s: string): (r: string)
    ensures '/' !in r
  {
    var p := Split(s, "/");
    var r := p[|p| - 1];
    assert !Contains(r, "/");
    assert forall i :: 0 <= i ==> !OccursAt(r, "/", i);
    assert forall i :: 0 <= i < |r| ==> r[i] != '/' by {
      forall i | 0 <= i < |r| ensures r[i] != '/' {
        assert r[i..i + 1] == [r[i]];
        assert !OccursAt(r, "/", i);
      }
    }
    r
  }

  /** The last segment of a path ending in `"/" + name` is `name`, provided
      `name` has no slash. */
  lemma LastSegmentOf(dir: string, name: string)
    requires '/' !in name
    ensures LastSegment(dir + "/" + name) == name
  {
    SplitLastPiece(dir, '/', name);
  }

  /** Two directory prefixes `p + a + "/"` and `p + b + "/"` with different
      slash-free segments never both start the same path. */
  lemma SeparatedPrefixes(p: string, a: string, b: string, s: string)
    requires a != b && '/' !in a && '/' !in b
    ensures StartsWith(s, p + a + "/") ==> !StartsWith(s, p + b + "/")
  {
    var x := p + a + "/";
    var y := p + b + "/";
    if StartsWith(s, x) && |y| <= |s| {
      var k: nat;
      if |a| < |b| {
        k := |p| + |a|;
        assert y[k] == b[|a|];
        assert s[k] == x[k] == '/';
      } else if |b| < |a| {
        k := |p| + |b|;
        assert s[k] == x[k] == a[|b|];
        assert y[k] == '/';
      } else {
        var j :| 0 <= j < |a| && a[j] != b[j];
        k := |p| + j;
        assert s[k] == x[k] == a[j];
        assert y[k] == b[j];
      }
      assert s[..|y|][k] != y[k];
    }
  }

  // ---------------------------------------------------------------------
  // split() on whitespace

  /** Index of the first whitespace character of `s`, or `|s|`. */
  function WordEnd(s: string): (k: nat)
    ensures k <= |s|
    ensures forall i :: 0 <= i < k ==> !IsSpace(s[i])
    ensures k < |s| ==> IsSpace(s[k])
  {
    if |s| == 0 || IsSpace(s[0]) then 0 else 1 + WordEnd(s[1..])
  }

  /** `s.split()`: the maximal runs of non-whitespace characters, in order. */
  function Words(s: string): (r: seq<string>)
    ensures forall i :: 0 <= i < |r| ==> IsWord(r[i])
    decreases |s|
  {
    if |s| == 0 then []
    else if IsSpace(s[0]) then Words(s[1..])
    else
      var k := WordEnd(s);
      [s[..k]] + Words(s[k..])
  }

  /** A word: non-empty and free of whitespace. */
  predicate IsWord(w: string) {
    |w| > 0 && forall i :: 0 <= i < |w| ==> !IsSpace(w[i])
  }

  /** Leading whitespace does not change the words. */
  lemma {:induction false} WordsSkipSpace(sp: string, s: string)
    requires forall i :: 0 <= i < |sp| ==> IsSpace(sp[i])
    ensures Words(sp + s) == Words(s)
    decreases |sp|
  {
    if |sp| > 0 {
      assert IsSpace((sp + s)[0]);
      assert (sp + s)[1..] == sp[1..] + s;
      assert Words(sp + s) == Words(sp[1..] + s);
      WordsSkipSpace(sp[1..], s);
    } else {
      assert sp + s == s;
    }
  }

  /** A word followed by a space and more text splits off as the first word. */
  lemma WordsCons(w: string, rest: string)
    requires IsWord(w)
    requires rest == [] || IsSpace(rest[0])
    ensures Words(w + rest) == [w] + Words(rest)
  {
    var s := w + rest;
    WordEndOf(w, rest);
    assert s[..|w|] == w;
    assert s[|w|..] == rest;
  }

  /** The first word of `w + rest` ends exactly where `w` ends. */
  lemma {:induction false} WordEndOf(w: string, rest: string)
    requires forall i :: 0 <= i < |w| ==> !IsSpace(w[i])
    requires rest == [] || IsSpace(rest[0])
    ensures WordEnd(w + rest) == |w|
    decreases |w|
  {
    if |w| > 0 {
      assert (w + rest)[1..] == w[1..] + rest;
      WordEndOf(w[1..], rest);
    } else {
      assert w + rest == rest;
    }
  }

  /** Whitespace normalisation is idempotent: the words of the words joined by
      single spaces are the same words. */
  lemma {:induction false} WordsJoin(ws: seq<string>)
    requires forall i :: 0 <= i < |ws| ==> IsWord(ws[i])
    ensures Words(Join(ws, " ")) == ws
    decreases |ws|
  {
    if |ws| == 1 {
      WordsCons(ws[0], "");
      assert ws[0] + "" == ws[0];
    } else if |ws| > 1 {
      var tail := ws[1..];
      assert forall i :: 0 <= i < |tail| ==> tail[i] == ws[i + 1];
      var rest := Join(tail, " ");
      assert Join(ws, " ") == ws[0] + (" " + rest);
      WordsCons(ws[0], " " + rest);
      WordsSkipSpace(" ", rest);
      WordsJoin(tail);
    }
  }

  /** Trailing whitespace does not move the end of the first word. */
  lemma {:induction false} WordEndTrailing(s: string, sp: string)
    requires forall i :: 0 <= i < |sp| ==> IsSpace(sp[i])
    ensures WordEnd(s + sp) == WordEnd(s)
    decreases |s|
  {
    if |s| == 0 {
      assert s + sp == sp;
    } else if !IsSpace(s[0]) {
      assert (s + sp)[1..] == s[1..] + sp;
      WordEndTrailing(s[1..], sp);
    }
  }

  /** Trailing whitespace does not change the words. */
  lemma {:induction false} WordsTrailingSpace(s: string, sp: string)
    requires forall i :: 0 <= i < |sp| ==> IsSpace(sp[i])
    ensures Words(s + sp) == Words(s)
    decreases |s|
  {
    if |s| == 0 {
      assert s + sp == sp + s;
      WordsSkipSpace(sp, s);
    } else if IsSpace(s[0]) {
      assert (s + sp)[1..] == s[1..] + sp;
      WordsTrailingSpace(s[1..], sp);
    } else {
      var k := WordEnd(s);
      WordEndTrailing(s, sp);
      assert (s + sp)[..k] == s[..k];
      assert (s + sp)[k..] == s[k..] + sp;
      WordsTrailingSpace(s[k..], sp);
    }
  }

  /** Text after a word's terminating whitespace does not move the word's end. */
  lemma {:induction false} WordEndPrefix(a: string, c: string)
    requires WordEnd(a) < |a|
    ensures WordEnd(a + c) == WordEnd(a)
    decreases |a|
  {
    if !IsSpace(a[0]) {
      assert (a + c)[1..] == a[1..] + c;
      WordEndPrefix(a[1..], c);
    }
  }

  /** Joining two texts with a space joins their words. */
  lemma {:induction false} WordsAroundSpace(a: string, b: string)
    ensures Words(a + " " + b) == Words(a) + Words(b)
    decreases |a|
  {
    var s := a + " " + b;
    if |a| == 0 {
      assert s == " " + b;
      WordsSkipSpace(" ", b);
    } else if IsSpace(a[0]) {
      assert s[1..] == a[1..] + " " + b;
      WordsAroundSpace(a[1..], b);
    } else {
      var k := WordEnd(a);
      WordEndBeforeSpace(a, b);
      assert s[..k] == a[..k];
      assert s[k..] == a[k..] + " " + b;
      WordsAroundSpace(a[k..], b);
    }
  }

  /** The first word of `a + " " + b` is the first word of `a`. */
  lemma WordEndBeforeSpace(a: string, b: string)
    requires |a| > 0
    ensures WordEnd(a + " " + b) == WordEnd(a)
  {
    assert a + " " + b == a + (" " + b);
    if WordEnd(a) < |a| {
      WordEndPrefix(a, " " + b);
    } else {
      WordEndOf(a, " " + b);
    }
  }

  /** The words of each text, in order. */
  function AllWords(ts: seq<string>): (ws: seq<string>)
    ensures forall i :: 0 <= i < |ws| ==> IsWord(ws[i])
  {
    if |ts| == 0 then [] else Words(ts[0]) + AllWords(ts[1..])
  }

  /** The words of texts joined by single spaces are the texts' words, in order. */
  lemma {:induction false} WordsOfJoin(ts: seq<string>)
    ensures Words(Join(ts, " ")) == AllWords(ts)
    decreases |ts|
  {
    if |ts| == 1 {
      assert AllWords(ts) == Words(ts[0]) + AllWords([]);
    } else if |ts| > 1 {
      WordsAroundSpace(ts[0], Join(ts[1..], " "));
      WordsOfJoin(ts[1..]);
    }
  }

  /** `s.strip().split() == s.split()`. */
  lemma WordsStrip(s: string)
    ensures Words(Strip(s)) == Words(s)
  {
    WordsLStrip(s);
    WordsRStrip(LStrip(s));
  }

  /** `s.lstrip().split() == s.split()`. */
  lemma WordsLStrip(s: string)
    ensures Words(LStrip(s)) == Words(s)
  {
    var l := LStrip(s);
    var sp := s[..|s| - |l|];
    assert forall i :: 0 <= i < |sp| ==> IsSpace(sp[i]);
    assert sp + l == s;
    WordsSkipSpace(sp, l);
  }

  /** `s.rstrip().split() == s.split()`. */
  lemma WordsRStrip(s: string)
    ensures Words(RStrip(s)) == Words(s)
  {
    var r := RStrip(s);
    var sp := s[|r|..];
    assert forall i :: 0 <= i < |sp| ==> IsSpace(sp[i]);
    assert r + sp == s;
    WordsTrailingSpace(r, sp);
  }

  // ---------------------------------------------------------------------
  // upper, slicing, replace

  /** `c.upper()` on the ASCII letters; other characters are left alone. */
  function UpperChar(c: char): (r: char)
    ensures 'a' <= c <= 'z' ==> 'A' <= r <= 'Z'
    ensures !('a' <= c <= 'z') ==> r == c
  {
    if 'a' <= c <= 'z' then (c as int - 'a' as int + 'A' as int) as char else c
  }

  /** `s.upper()` (ASCII case mapping). */
  function Upper(s: string): (r: string)
    ensures |r| == |s|
    ensures forall i :: 0 <= i < |s| ==> r[i] == UpperChar(s[i])
  {
    seq(|s|, i requires 0 <= i < |s| => UpperChar(s[i]))
  }

  /** How Python clamps a slice bound `i` against a length `n`:
      negative bounds count from the end, then the bound is clamped to [0, n]. */
  function SliceBound(i: int, n: nat): (r: nat)
    ensures r <= n
    ensures 0 <= i <= n ==> r == i
    ensures i > n ==> r == n
    ensures i < 0 ==> r == (if i + n < 0 then 0 else i + n)
  {
    if i < 0 then (if i + n < 0 then 0 else i + n)
    else if i > n then n
    else i
  }

  /** `s[i:j]` for arbitrary integers: never fails, empty when the clamped
      bounds cross. */
  function Slice(s: string, i: int, j: int): (r: string)
    ensures 0 <= i <= j <= |s| ==> r == s[i..j]
    ensures |r| <= |s|
  {
    var a := SliceBound(i, |s|);
    var b := SliceBound(j, |s|);
    if a < b then s[a..b] else ""
  }

  /** `s.replace(pat, "")`: every non-overlapping occurrence of `pat`,
      scanned left to right, is removed. */
  function RemoveAll(s: string, pat: string): (r: string)
    requires |pat| > 0
    ensures |r| <= |s|
    decreases |s|
  {
    if |s| < |pat| then s
    else if s[..|pat|] == pat then RemoveAll(s[|pat|..], pat)
    else [s[0]] + RemoveAll(s[1..], pat)
  }

  /** A text free of `pat` is left unchanged by removing `pat`. */
  lemma {:induction false} RemoveAllAbsent(s: string, pat: string)
    requires |pat| > 0 && !Contains(s, pat)
    ensures RemoveAll(s, pat) == s
    decreases |s|
  {
    if |s| >= |pat| {
      assert !OccursAt(s, pat, 0);
      ShiftOccurs(s, pat);
      RemoveAllAbsent(s[1..], pat);
      assert s == [s[0]] + s[1..];
    }
  }

  /** Removing `pat` from `w + pat` gives back `w`, when `w` holds no `pat`
      and the first character of `pat` does not recur in it (so no occurrence
      can straddle the join). */
  lemma {:induction false} RemoveAllTrailing(w: string, pat: string)
    requires |pat| > 0
    requires forall k :: 0 < k < |pat| ==> pat[k] != pat[0]
    requires !Contains(w, pat)
    ensures RemoveAll(w + pat, pat) == w
    decreases |w|
  {
    var s := w + pat;
    if |w| == 0 {
      assert s == pat;
      assert s[|pat|..] == [];
    } else {
      assert s[..|pat|] != pat by {
        if |w| >= |pat| {
          assert !OccursAt(w, pat, 0);
          assert s[..|pat|] == w[..|pat|];
        } else {
          assert s[..|pat|][|w|] == pat[0] != pat[|w|];
        }
      }
      assert s[1..] == w[1..] + pat;
      SuffixAbsent(w, pat, 1);
      RemoveAllTrailing(w[1..], pat);
      assert w == [w[0]] + w[1..];
    }
  }
}
