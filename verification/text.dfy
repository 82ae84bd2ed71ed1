/**
 The string helpers the matcher is built on: lower-casing, whitespace
 stripping and splitting with Python's notion of whitespace, substring
 search, joining, and the `_clean` normaliser of matcher.py.

 Lower-casing covers ASCII letters only; Unicode case mapping is not modelled.
 */
module Text {
  import opened Collections

  /** Characters Python's `str.isspace` accepts (and `strip`/`split` remove). */
  predicate IsSpace(c: char) {
    var n := c as int;
    (9 <= n <= 13) || (28 <= n <= 32) || n == 0x85 || n == 0xA0 || n == 0x1680
    || (0x2000 <= n <= 0x200A) || n == 0x2028 || n == 0x2029 || n == 0x202F
    || n == 0x205F || n == 0x3000
  }

  /** A character `split()` keeps inside a word. */
  predicate IsWordChar(c: char) {
    !IsSpace(c)
  }

  predicate IsUpper(c: char) {
    'A' <= c <= 'Z'
  }

  function LowerChar(c: char): char {
    if IsUpper(c) then (c as int + 32) as char else c
  }

  /** `str.lower()` restricted to ASCII letters. */
  function Lower(s: string): (r: string)
    ensures |r| == |s|
  {
    seq(|s|, i requires 0 <= i < |s| => LowerChar(s[i]))
  }

  /** Lower-casing leaves no upper-case letter, shifts each upper-case letter to
      its lower-case partner and keeps every other character. */
  lemma LowerSpec(s: string)
    ensures forall c :: c in Lower(s) ==> !IsUpper(c)
    ensures forall i :: 0 <= i < |s| && IsUpper(s[i]) ==> Lower(s)[i] as int == s[i] as int + 32
    ensures forall i :: 0 <= i < |s| && !IsUpper(s[i]) ==> Lower(s)[i] == s[i]
  {
  }

  /** Lower-casing an already lower-cased string changes nothing. */
  lemma LowerIdempotent(s: string)
    ensures Lower(Lower(s)) == Lower(s)
  {
    assert forall i :: 0 <= i < |s| ==> LowerChar(LowerChar(s[i])) == LowerChar(s[i]);
  }

  /** Index of the first non-whitespace character at or after `i` (|s| if none). */
  function SkipSpaces(s: string, i: nat): (j: nat)
    requires i <= |s|
    ensures i <= j <= |s|
    decreases |s| - i
  {
    if i == |s| || !IsSpace(s[i]) then i else SkipSpaces(s, i + 1)
  }

  lemma {:induction false} SkipSpacesSpec(s: string, i: nat)
    requires i <= |s|
    ensures forall k :: i <= k < SkipSpaces(s, i) ==> IsSpace(s[k])
    ensures SkipSpaces(s, i) == |s| || !IsSpace(s[SkipSpaces(s, i)])
    decreases |s| - i
  {
    if i < |s| && IsSpace(s[i]) {
      SkipSpacesSpec(s, i + 1);
    }
  }

  /** End of `s[..j]` once its trailing whitespace is dropped. */
  function TrimEnd(s: string, j: nat): (k: nat)
    requires j <= |s|
    ensures k <= j
  {
    if j == 0 || !IsSpace(s[j - 1]) then j else TrimEnd(s, j - 1)
  }

  lemma {:induction false} TrimEndSpec(s: string, j: nat)
    requires j <= |s|
    ensures forall m :: TrimEnd(s, j) <= m < j ==> IsSpace(s[m])
    ensures TrimEnd(s, j) == 0 || !IsSpace(s[TrimEnd(s, j) - 1])
  {
    if j > 0 && IsSpace(s[j - 1]) {
      TrimEndSpec(s, j - 1);
    }
  }

  /** `strip()`: drop leading and trailing whitespace. */
  function Strip(s: string): (r: string)
    ensures |r| <= |s|
  {
    var i := SkipSpaces(s, 0);
    var j := TrimEnd(s, |s|);
    if j <= i then "" else s[i..j]
  }

  /** `r` occurs in `s` at position `i`, with only whitespace before and after it. */
  predicate IsSliceAt(s: string, r: string, i: nat) {
    i + |r| <= |s| && s[i..i + |r|] == r
    && (forall k :: 0 <= k < i ==> IsSpace(s[k]))
    && (forall k :: i + |r| <= k < |s| ==> IsSpace(s[k]))
  }

  /** `strip()` removes whitespace from both ends, and nothing else. */
  lemma StripSpec(s: string)
    ensures Strip(s) == "" || (!IsSpace(Strip(s)[0]) && !IsSpace(Strip(s)[|Strip(s)| - 1]))
    ensures exists i :: 0 <= i <= |s| - |Strip(s)| && IsSliceAt(s, Strip(s), i)
    ensures forall c :: c in Strip(s) ==> c in s
  {
    var i := SkipSpaces(s, 0);
    var j := TrimEnd(s, |s|);
    SkipSpacesSpec(s, 0);
    TrimEndSpec(s, |s|);
    if j <= i {
      assert i == |s|;
      assert IsSliceAt(s, "", 0);
    } else {
      assert IsSliceAt(s, s[i..j], i);
    }
  }

  /** Stripping drops only whitespace: whatever a whitespace-rejecting filter keeps survives, in order. */
  lemma StripKeeps(s: string, p: char -> bool)
    requires forall c :: IsSpace(c) ==> !p(c)
    ensures Filter(Strip(s), p) == Filter(s, p)
  {
    var i := SkipSpaces(s, 0);
    var j := TrimEnd(s, |s|);
    SkipSpacesSpec(s, 0);
    TrimEndSpec(s, |s|);
    if j <= i {
      SpacesFilterEmpty(s, p);
    } else {
      var pre, mid, post := s[..i], s[i..j], s[j..];
      assert s == pre + mid + post;
      SpacesFilterEmpty(pre, p);
      SpacesFilterEmpty(post, p);
      FilterConcat(pre + mid, post, p);
      FilterConcat(pre, mid, p);
      assert Filter(s, p) == [] + Filter(mid, p) + [];
    }
  }

  /** A whitespace-rejecting filter keeps nothing of a run of whitespace. */
  lemma SpacesFilterEmpty(s: string, p: char -> bool)
    requires forall c :: IsSpace(c) ==> !p(c)
    requires forall k :: 0 <= k < |s| ==> IsSpace(s[k])
    ensures Filter(s, p) == []
  {
    FilterNone(s, p);
  }

  /** Stripping a string with no whitespace at all changes nothing. */
  lemma StripNoSpace(s: string)
    requires forall i :: 0 <= i < |s| ==> !IsSpace(s[i])
    ensures Strip(s) == s
  {
    SkipSpacesSpec(s, 0);
    TrimEndSpec(s, |s|);
  }

  /** Every character of `s` other than `c`, in order (`str.replace(c, "")`). */
  function Remove(s: string, c: char): (r: string)
    ensures |r| <= |s|
    decreases |s|
  {
    if |s| == 0 then ""
    else (if s[0] == c then "" else [s[0]]) + Remove(s[1..], c)
  }

  /** Selects the characters other than `c`. */
  function DiffersFrom(c: char): char -> bool {
    (d: char) => d != c
  }

  /** Removal deletes every `c` and keeps every other character, in order. */
  lemma {:induction false} RemoveSpec(s: string, c: char)
    ensures c !in Remove(s, c)
    ensures forall d :: d in Remove(s, c) <==> d in s && d != c
    ensures Remove(s, c) == Filter(s, DiffersFrom(c))
    decreases |s|
  {
    if |s| > 0 {
      RemoveSpec(s[1..], c);
      assert s == [s[0]] + s[1..];
    }
  }

  /** Whatever a filter that rejects `c` keeps survives removing `c`, in order. */
  lemma RemoveKeeps(s: string, c: char, p: char -> bool)
    requires !p(c)
    ensures Filter(Remove(s, c), p) == Filter(s, p)
  {
    RemoveSpec(s, c);
    FilterNarrow(s, DiffersFrom(c), p);
  }

  /** `str.replace("  ", " ")`: one left-to-right pass that replaces each
      non-overlapping pair of spaces by one space. Runs are halved, not collapsed. */
  function HalveSpaceRuns(s: string): (r: string)
    ensures |r| <= |s|
    decreases |s|
  {
    if |s| >= 2 && s[0] == ' ' && s[1] == ' ' then " " + HalveSpaceRuns(s[2..])
    else if |s| == 0 then ""
    else [s[0]] + HalveSpaceRuns(s[1..])
  }

  /** Two spaces in a row occur somewhere in `s`. */
  predicate HasDoubleSpace(s: string) {
    exists i :: 0 <= i < |s| - 1 && s[i] == ' ' && s[i + 1] == ' '
  }

  /**
   The pass introduces no character and deletes only spaces, keeping every
   other character in order; a string without a double space is left alone.
   */
  lemma {:induction false} HalveSpaceRunsSpec(s: string)
    ensures forall d :: d in HalveSpaceRuns(s) ==> d in s
    ensures Remove(HalveSpaceRuns(s), ' ') == Remove(s, ' ')
    ensures !HasDoubleSpace(s) ==> HalveSpaceRuns(s) == s
    decreases |s|
  {
    RemoveSpec(s, ' ');
    RemoveSpec(HalveSpaceRuns(s), ' ');
    HalveSpaceRunsKeeps(s, DiffersFrom(' '));
    if |s| >= 2 && s[0] == ' ' && s[1] == ' ' {
      HalveSpaceRunsSpec(s[2..]);
    } else if |s| > 0 {
      var t := s[1..];
      HalveSpaceRunsSpec(t);
      assert s == [s[0]] + t;
      if HasDoubleSpace(t) {
        var i :| 0 <= i < |t| - 1 && t[i] == ' ' && t[i + 1] == ' ';
        assert s[i + 1] == ' ' && s[i + 2] == ' ';
      }
    }
  }

  /** The pass shortens the string exactly when a double space occurs, and by at most half. */
  lemma {:induction false} HalveSpaceRunsLength(s: string)
    ensures |HalveSpaceRuns(s)| < |s| <==> HasDoubleSpace(s)
    ensures 2 * |HalveSpaceRuns(s)| >= |s|
    decreases |s|
  {
    if |s| >= 2 && s[0] == ' ' && s[1] == ' ' {
      HalveSpaceRunsLength(s[2..]);
      assert HasDoubleSpace(s);
    } else if |s| > 0 {
      var t := s[1..];
      HalveSpaceRunsLength(t);
      if HasDoubleSpace(s) {
        var i :| 0 <= i < |s| - 1 && s[i] == ' ' && s[i + 1] == ' ';
        assert i > 0;
        assert t[i - 1] == ' ' && t[i] == ' ';
      }
      if HasDoubleSpace(t) {
        var i :| 0 <= i < |t| - 1 && t[i] == ' ' && t[i + 1] == ' ';
        assert s[i + 1] == ' ' && s[i + 2] == ' ';
      }
    }
  }

  /** Whatever a filter that rejects the space keeps survives the pass, in order. */
  lemma {:induction false} HalveSpaceRunsKeeps(s: string, p: char -> bool)
    requires !p(' ')
    ensures Filter(HalveSpaceRuns(s), p) == Filter(s, p)
    decreases |s|
  {
    if |s| >= 2 && s[0] == ' ' && s[1] == ' ' {
      HalveSpaceRunsKeeps(s[2..], p);
      assert s == [' '] + ([' '] + s[2..]);
      FilterConcat([' '], s[1..], p);
      assert s[1..] == [' '] + s[2..];
      FilterConcat([' '], s[2..], p);
      FilterConcat([' '], HalveSpaceRuns(s[2..]), p);
    } else if |s| > 0 {
      HalveSpaceRunsKeeps(s[1..], p);
      FilterConcat([s[0]], HalveSpaceRuns(s[1..]), p);
      FilterConcat([s[0]], s[1..], p);
      assert s == [s[0]] + s[1..];
    }
  }

  /** A run of four spaces becomes a run of two: the pass is not a full collapse. */
  lemma HalveSpaceRunsIsSinglePass()
    ensures HalveSpaceRuns("a    b") == "a  b"
  {
    assert "a    b"[1..] == "    b";
    assert "    b"[2..] == "  b";
    assert "  b"[2..] == "b";
    assert HalveSpaceRuns("b") == "b";
    assert HalveSpaceRuns("  b") == " b";
    assert HalveSpaceRuns("    b") == "  b";
  }

  /** `p` occurs in `s` starting at index `i`. */
  predicate StartsAt(s: string, p: string, i: nat) {
    i + |p| <= |s| && s[i..i + |p|] == p
  }

  /** Python's `p in s` on strings: `p` occurs contiguously somewhere in `s`. */
  predicate Contains(s: string, p: string) {
    exists i :: 0 <= i <= |s| - |p| && StartsAt(s, p, i)
  }

  /** Length of the longest prefix of `s` with no whitespace. */
  function WordLength(s: string): (n: nat)
    ensures n <= |s|
    ensures forall i :: 0 <= i < n ==> !IsSpace(s[i])
    ensures n == |s| || IsSpace(s[n])
    decreases |s|
  {
    if |s| == 0 || IsSpace(s[0]) then 0 else 1 + WordLength(s[1..])
  }

  /** `str.split()` with no separator: the maximal runs of non-whitespace. */
  function Split(s: string): (r: seq<string>)
    decreases |s|
  {
    if |s| == 0 then []
    else if IsSpace(s[0]) then Split(s[1..])
    else
      var n := WordLength(s);
      [s[..n]] + Split(s[n..])
  }

  /** Every token is a non-empty, whitespace-free substring of `s`. */
  lemma {:induction false} SplitSpec(s: string)
    ensures forall k :: 0 <= k < |Split(s)| ==> |Split(s)[k]| > 0
    ensures forall k, i :: 0 <= k < |Split(s)| && 0 <= i < |Split(s)[k]| ==> !IsSpace(Split(s)[k][i])
    ensures forall k :: 0 <= k < |Split(s)| ==> Contains(s, Split(s)[k])
    decreases |s|
  {
    if |s| == 0 {
    } else if IsSpace(s[0]) {
      SplitSpec(s[1..]);
      SuffixContained(s, 1, Split(s[1..]));
    } else {
      var n := WordLength(s);
      SplitSpec(s[n..]);
      assert StartsAt(s, s[..n], 0);
      SuffixContained(s, n, Split(s[n..]));
    }
  }

  /**
   Splitting loses nothing but whitespace: the words, glued back together,
   are the non-whitespace characters of `s` in order. So there are no words
   exactly when `s` is all whitespace.
   */
  lemma {:induction false} SplitCovers(s: string)
    ensures Join(Split(s), "") == Filter(s, IsWordChar)
    ensures Split(s) == [] <==> forall i :: 0 <= i < |s| ==> IsSpace(s[i])
    decreases |s|
  {
    if |s| == 0 {
    } else if IsSpace(s[0]) {
      SplitCovers(s[1..]);
      assert s == [s[0]] + s[1..];
      FilterConcat([s[0]], s[1..], IsWordChar);
      assert forall i :: 1 <= i < |s| ==> s[i] == s[1..][i - 1];
    } else {
      var n := WordLength(s);
      var w, rest := s[..n], s[n..];
      SplitCovers(rest);
      assert s == w + rest;
      FilterConcat(w, rest, IsWordChar);
      FilterAll(w, IsWordChar);
      JoinCons(w, Split(rest));
    }
  }

  /** Joining with no separator: the first part followed by the join of the rest. */
  lemma JoinCons(w: string, rest: seq<string>)
    ensures Join([w] + rest, "") == w + Join(rest, "")
  {
    if |rest| == 0 {
      assert [w] + rest == [w];
    } else {
      assert ([w] + rest)[1..] == rest;
    }
  }

  /** What a suffix of `s` contains, `s` contains. */
  lemma SuffixContained(s: string, n: nat, rest: seq<string>)
    requires n <= |s|
    requires forall k :: 0 <= k < |rest| ==> Contains(s[n..], rest[k])
    ensures forall k :: 0 <= k < |rest| ==> Contains(s, rest[k])
  {
    forall k | 0 <= k < |rest|
      ensures Contains(s, rest[k])
    {
      var i :| 0 <= i <= |s[n..]| - |rest[k]| && StartsAt(s[n..], rest[k], i);
      assert s[n..][i..i + |rest[k]|] == s[n + i..n + i + |rest[k]|];
      assert StartsAt(s, rest[k], n + i);
    }
  }

  /** `sep.join(parts)`. */
  function Join(parts: seq<string>, sep: string): string
    decreases |parts|
  {
    if |parts| == 0 then ""
    else if |parts| == 1 then parts[0]
    else parts[0] + sep + Join(parts[1..], sep)
  }

  /** Appending a part appends the separator and the part. */
  lemma {:induction false} JoinAppend(parts: seq<string>, x: string, sep: string)
    requires |parts| > 0
    ensures Join(parts + [x], sep) == Join(parts, sep) + sep + x
    decreases |parts|
  {
    if |parts| > 1 {
      assert (parts + [x])[1..] == parts[1..] + [x];
      JoinAppend(parts[1..], x, sep);
    }
  }

  /** The join starts with the first part, so it is never shorter than it. */
  lemma JoinStartsWithFirst(parts: seq<string>, sep: string)
    requires |parts| > 0
    ensures |Join(parts, sep)| >= |parts[0]|
  {
  }

  /** `_clean`: lower-case, delete `.` and `,`, halve runs of spaces once, strip. */
  function Clean(s: string): (r: string)
    ensures |r| <= |s|
  {
    Strip(HalveSpaceRuns(Remove(Remove(Lower(s), '.'), ',')))
  }

  /** A character `_clean` never deletes: neither whitespace, `.` nor `,`. */
  predicate IsContentChar(c: char) {
    !IsSpace(c) && c != '.' && c != ','
  }

  /**
   A cleaned string is lower-case, has no `.` or `,`, and neither starts nor
   ends in whitespace; its characters other than whitespace are exactly those
   of the lower-cased input other than whitespace, `.` and `,`, in order.
   */
  lemma CleanSpec(s: string)
    ensures forall c :: c in Clean(s) ==> !IsUpper(c) && c != '.' && c != ','
    ensures Clean(s) == "" || (!IsSpace(Clean(s)[0]) && !IsSpace(Clean(s)[|Clean(s)| - 1]))
    ensures Filter(Clean(s), IsContentChar) == Filter(Lower(s), IsContentChar)
  {
    var lowered := Lower(s);
    LowerSpec(s);
    var noDots := Remove(lowered, '.');
    RemoveSpec(lowered, '.');
    var noCommas := Remove(noDots, ',');
    RemoveSpec(noDots, ',');
    var halved := HalveSpaceRuns(noCommas);
    HalveSpaceRunsSpec(noCommas);
    StripSpec(halved);
    RemoveKeeps(lowered, '.', IsContentChar);
    RemoveKeeps(noDots, ',', IsContentChar);
    HalveSpaceRunsKeeps(noCommas, IsContentChar);
    StripKeeps(halved, IsContentChar);
  }
}
