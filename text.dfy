/** String operations of Python's `str` that the core relies on: whitespace
    classification, `strip`, `lower`, `in`, `find`, `split(sep)`, `split()`
    and `join`. Strings are sequences of Unicode scalar values. */
module Text {
  import opened Common

  /** `str.isspace()` for one character, which is also what `\s` matches in a
      `str` regular expression. */
  predicate IsSpace(c: char)
  {
    c == ' ' || ('\t' <= c <= '\r') || ('\U{1C}' <= c <= '\U{1F}')
    || c == '\U{85}' || c == '\U{A0}' || c == '\U{1680}'
    || ('\U{2000}' <= c <= '\U{200A}') || c == '\U{2028}' || c == '\U{2029}'
    || c == '\U{202F}' || c == '\U{205F}' || c == '\U{3000}'
  }

  predicate AllSpace(s: string)
  {
    forall i :: 0 <= i < |s| ==> IsSpace(s[i])
  }

  lemma AllSpaceSnoc(a: string, c: char)
    requires AllSpace(a) && IsSpace(c)
    ensures AllSpace(a + [c])
  {
    assert forall i :: 0 <= i < |a| ==> (a + [c])[i] == a[i];
  }

  lemma AllSpaceCons(c: char, a: string)
    requires IsSpace(c) && AllSpace(a)
    ensures AllSpace([c] + a)
  {
    assert forall i :: 1 <= i <= |a| ==> ([c] + a)[i] == a[i - 1];
  }

  /** `str.lstrip()`: drops the leading whitespace and nothing else. */
  function TrimLeft(s: string): (r: string)
    ensures |r| <= |s| && r == s[|s| - |r|..]
    ensures r == [] || !IsSpace(r[0])
    ensures AllSpace(s[..|s| - |r|])
    decreases |s|
  {
    if s != [] && IsSpace(s[0]) then
      var r := TrimLeft(s[1..]);
      assert s[1..][|s| - 1 - |r|..] == s[|s| - |r|..];
      assert s[..|s| - |r|] == [s[0]] + s[1..][..|s| - 1 - |r|];
      AllSpaceCons(s[0], s[1..][..|s| - 1 - |r|]);
      r
    else s
  }

  /** `str.rstrip()`: drops the trailing whitespace and nothing else. */
  function TrimRight(s: string): (r: string)
    ensures |r| <= |s| && r == s[..|r|]
    ensures r == [] || !IsSpace(r[|r| - 1])
    ensures AllSpace(s[|r|..])
    decreases |s|
  {
    if s != [] && IsSpace(s[|s| - 1]) then
      var r := TrimRight(s[..|s| - 1]);
      assert s[..|s| - 1][..|r|] == s[..|r|];
      assert s[|r|..] == s[..|s| - 1][|r|..] + [s[|s| - 1]];
      AllSpaceSnoc(s[..|s| - 1][|r|..], s[|s| - 1]);
      r
    else s
  }

  /** `rstrip` stops at the last non-space character. */
  lemma {:induction false} TrimRightKeeps(x: string, n: nat)
    requires 1 <= n <= |x| && !IsSpace(x[n - 1])
    ensures n <= |TrimRight(x)|
    decreases |x|
  {
    if |x| > n && IsSpace(x[|x| - 1]) {
      assert x[..|x| - 1][n - 1] == x[n - 1];
      TrimRightKeeps(x[..|x| - 1], n);
    }
  }

  /** `str.strip()`. */
  function Strip(s: string): (r: string)
  {
    TrimRight(TrimLeft(s))
  }

  /** The stripped string is the piece of the input that starts where the
      leading whitespace ends; only whitespace lies on either side of it. */
  lemma StripIsTrimmedSlice(s: string)
    ensures var r, i := Strip(s), |s| - |TrimLeft(s)|;
      i + |r| <= |s| && (forall j :: 0 <= j < |r| ==> r[j] == s[i + j])
        && (forall j :: 0 <= j < i ==> IsSpace(s[j]))
        && (forall j :: i + |r| <= j < |s| ==> IsSpace(s[j]))
  {
    var t := TrimLeft(s);
    TrimmedSlice(s, t, TrimRight(t));
  }

  /** A right-trimmed prefix of a left-trimmed suffix: its characters sit at
      an offset in the input, between two runs of whitespace. */
  lemma TrimmedSlice(s: string, t: string, r: string)
    requires |t| <= |s| && t == s[|s| - |t|..] && AllSpace(s[..|s| - |t|])
    requires |r| <= |t| && r == t[..|r|] && AllSpace(t[|r|..])
    ensures var i := |s| - |t|;
      (forall j :: 0 <= j < |r| ==> r[j] == s[i + j])
        && (forall j :: 0 <= j < i ==> IsSpace(s[j]))
        && (forall j :: i + |r| <= j < |s| ==> IsSpace(s[j]))
  {
    var i := |s| - |t|;
    forall j | 0 <= j < i ensures IsSpace(s[j]) {
      assert s[..i][j] == s[j];
    }
    forall j | i + |r| <= j < |s| ensures IsSpace(s[j]) {
      assert t[|r|..][j - i - |r|] == s[j];
    }
  }

  /** Neither the first nor the last character is whitespace. */
  predicate Unpadded(x: string)
  {
    x == [] || (!IsSpace(x[0]) && !IsSpace(x[|x| - 1]))
  }

  /** The stripped string neither starts nor ends with whitespace. */
  lemma StripEnds(s: string)
    ensures Unpadded(Strip(s))
  {
    var t := TrimLeft(s);
    var r := TrimRight(t);
    if r != [] {
      assert r[0] == t[0];
    }
  }

  /** Every character of the stripped string comes from the input. */
  lemma StripChars(s: string)
    ensures forall j :: 0 <= j < |Strip(s)| ==> Strip(s)[j] in s
  {
    var t := TrimLeft(s);
    var r := TrimRight(t);
    SliceChars(s, |s| - |t|, r);
  }

  lemma SliceChars(s: string, i: nat, r: string)
    requires i + |r| <= |s| && r == s[i..i + |r|]
    ensures forall j :: 0 <= j < |r| ==> r[j] in s
  {
    forall j | 0 <= j < |r| ensures r[j] in s {
      assert r[j] == s[i + j];
    }
  }

  lemma StripAllSpace(s: string)
    requires AllSpace(s)
    ensures Strip(s) == []
  {
    assert TrimLeft(s) == [];
  }

  /** Stripping ignores whitespace added around the text. */
  lemma {:induction false} StripPadded(a: string, x: string, b: string)
    requires AllSpace(a) && AllSpace(b)
    ensures Strip(a + x + b) == Strip(x)
  {
    assert a + x + b == a + (x + b);
    TrimLeftPadded(a, x + b);
    assert TrimLeft(a + x + b) == TrimLeft(x + b);
    StripRightPadded(x, b);
  }

  lemma {:induction false} TrimLeftPadded(a: string, y: string)
    requires AllSpace(a)
    ensures TrimLeft(a + y) == TrimLeft(y)
    decreases |a|
  {
    if a == [] {
      assert a + y == y;
    } else {
      assert (a + y)[0] == a[0];
      assert (a + y)[1..] == a[1..] + y;
      TrimLeftPadded(a[1..], y);
    }
  }

  /** `lstrip` leaves a string that starts with a non-space unchanged. */
  lemma TrimLeftNoop(x: string)
    requires x != [] && !IsSpace(x[0])
    ensures TrimLeft(x) == x
  {
  }

  lemma {:induction false} StripRightPadded(x: string, b: string)
    requires AllSpace(b)
    ensures TrimRight(TrimLeft(x + b)) == TrimRight(TrimLeft(x))
    decreases |x|
  {
    if x == [] {
      assert x + b == b;
    } else if IsSpace(x[0]) {
      assert (x + b)[0] == x[0];
      assert (x + b)[1..] == x[1..] + b;
      assert TrimLeft(x + b) == TrimLeft(x[1..] + b);
      assert TrimLeft(x) == TrimLeft(x[1..]);
      StripRightPadded(x[1..], b);
    } else {
      assert (x + b)[0] == x[0];
      TrimLeftNoop(x + b);
      TrimLeftNoop(x);
      TrimRightSpaces(x, b);
    }
  }

  lemma {:induction false} TrimRightSpaces(y: string, c: string)
    requires AllSpace(c)
    ensures TrimRight(y + c) == TrimRight(y)
    decreases |c|
  {
    if c == [] {
      assert y + c == y;
    } else {
      assert (y + c)[|y + c| - 1] == c[|c| - 1];
      assert (y + c)[..|y + c| - 1] == y + c[..|c| - 1];
      TrimRightSpaces(y, c[..|c| - 1]);
    }
  }

  function LowerChar(c: char): char
  {
    if 'A' <= c <= 'Z' then (c as int + 32) as char else c
  }

  /** `str.lower()` on ASCII letters; every other character is kept. */
  function Lower(s: string): (r: string)
    ensures |r| == |s|
    ensures forall i :: 0 <= i < |s| ==> r[i] == LowerChar(s[i])
  {
    seq(|s|, i requires 0 <= i < |s| => LowerChar(s[i]))
  }

  lemma LowerIdempotent(s: string)
    ensures Lower(Lower(s)) == Lower(s)
  {
  }

  /** `s[i:i+len(p)] == p`. */
  predicate OccursAt(s: string, p: string, i: int)
  {
    0 <= i && i + |p| <= |s| && s[i..i + |p|] == p
  }

  /** `s.find(p, i)` as an option: the leftmost occurrence of `p` at or after `i`. */
  function FindFrom(s: string, p: string, i: nat): (r: Option<nat>)
    ensures r.Some? ==> i <= r.value && OccursAt(s, p, r.value)
    ensures r.Some? ==> forall j :: i <= j < r.value ==> !OccursAt(s, p, j)
    ensures r.None? ==> forall j :: i <= j ==> !OccursAt(s, p, j)
    decreases |s| - i
  {
    if i + |p| > |s| then None
    else if s[i..i + |p|] == p then Some(i)
    else FindFrom(s, p, i + 1)
  }

  /** Python's `p in s`. */
  predicate Contains(s: string, p: string)
  {
    FindFrom(s, p, 0).Some?
  }

  lemma ContainsIff(s: string, p: string)
    ensures Contains(s, p) <==> exists j :: OccursAt(s, p, j)
  {
    if Contains(s, p) {
      assert OccursAt(s, p, FindFrom(s, p, 0).value);
    }
  }

  /** A character that the pattern contains but the text lacks rules the pattern out. */
  lemma AbsentCharExcludes(s: string, p: string, c: char)
    requires c in p && c !in s
    ensures !Contains(s, p)
  {
    var k :| 0 <= k < |p| && p[k] == c;
    forall j | 0 <= j && j + |p| <= |s| ensures !OccursAt(s, p, j) {
      assert s[j..j + |p|][k] == s[j + k] != c;
    }
  }

  /** An occurrence of a pattern that lacks character `c` lies on one side of any `c` in the text. */
  lemma SplitAtAbsentChar(a: string, c: char, b: string, p: string)
    requires c !in p
    requires Contains(a + [c] + b, p)
    ensures Contains(a, p) || Contains(b, p)
  {
    var s := a + [c] + b;
    var j := FindFrom(s, p, 0).value;
    assert forall i :: j <= i < j + |p| ==> s[i] == p[i - j];
    assert s[|a|] == c;
    assert !(j <= |a| < j + |p|);
    if j + |p| <= |a| {
      assert s[..|a|] == a;
      assert s[j..j + |p|] == s[..|a|][j..j + |p|];
      assert OccursAt(a, p, j);
    } else {
      var off := |a| + 1;
      assert s[off..] == b;
      assert s[j..j + |p|] == s[off..][j - off..j - off + |p|];
      assert OccursAt(b, p, j - off);
    }
  }

  /** The converse: a pattern without `c` found on neither side of a `c` is
      not in the whole. */
  lemma AbsentAcross(a: string, c: char, b: string, p: string)
    requires c !in p && !Contains(a, p) && !Contains(b, p)
    ensures !Contains(a + [c] + b, p)
  {
    if Contains(a + [c] + b, p) {
      SplitAtAbsentChar(a, c, b, p);
      assert false;
    }
  }

  /** `sep.join(parts)`. */
  function JoinWith(sep: string, parts: seq<string>): string
    decreases |parts|
  {
    if parts == [] then ""
    else if |parts| == 1 then parts[0]
    else parts[0] + sep + JoinWith(sep, parts[1..])
  }

  /** `s.split(sep)` for a non-empty separator: cut at each leftmost,
      non-overlapping occurrence. (`re.split` with a pattern that contains no
      special characters behaves the same.) */
  function SplitOn(s: string, sep: string): (r: seq<string>)
    requires sep != []
    ensures |r| >= 1
    decreases |s|
  {
    match FindFrom(s, sep, 0)
    case None => [s]
    case Some(i) => [s[..i]] + SplitOn(s[i + |sep|..], sep)
  }

  /** A piece that can be joined with `sep` and found again: no occurrence of
      `sep` starts inside it, even one that would run on into the separator. */
  predicate SeparableBy(piece: string, sep: string)
    requires sep != []
  {
    !Contains(piece + sep[..|sep| - 1], sep)
  }

  lemma {:induction false} FirstSeparator(p: string, sep: string, rest: string)
    requires sep != [] && SeparableBy(p, sep)
    ensures FindFrom(p + sep + rest, sep, 0) == Some(|p|)
  {
    var s := p + sep + rest;
    var q := p + sep[..|sep| - 1];
    assert s[|p|..|p| + |sep|] == sep;
    assert OccursAt(s, sep, |p|);
    assert s[..|q|] == q;
    forall j | 0 <= j < |p| ensures !OccursAt(s, sep, j) {
      if OccursAt(s, sep, j) {
        OccursInPrefix(s, q, sep, j);
      }
    }
  }

  /** An occurrence that ends inside a prefix is an occurrence in that prefix. */
  lemma OccursInPrefix(s: string, q: string, p: string, j: nat)
    requires |q| <= |s| && s[..|q|] == q && j + |p| <= |q| && OccursAt(s, p, j)
    ensures OccursAt(q, p, j)
  {
    assert q[j..j + |p|] == s[j..j + |p|];
  }

  lemma {:induction false} SplitJoin(parts: seq<string>, sep: string)
    requires sep != [] && parts != []
    requires forall k :: 0 <= k < |parts| ==> SeparableBy(parts[k], sep)
    ensures SplitOn(JoinWith(sep, parts), sep) == parts
    decreases |parts|
  {
    var p := parts[0];
    assert SeparableBy(p, sep);
    if |parts| == 1 {
      if Contains(p, sep) {
        ContainsExtend(p, sep[..|sep| - 1], sep);
      }
      assert SplitOn(p, sep) == [p];
    } else {
      var rest := JoinWith(sep, parts[1..]);
      var s := p + sep + rest;
      assert JoinWith(sep, parts) == s;
      FirstSeparator(p, sep, rest);
      assert s[..|p|] == p;
      assert s[|p| + |sep|..] == rest;
      assert SplitOn(s, sep) == [p] + SplitOn(rest, sep);
      SplitJoin(parts[1..], sep);
      assert parts == [p] + parts[1..];
    }
  }

  /** Text appended after an occurrence does not remove it. */
  lemma ContainsExtend(p: string, x: string, sep: string)
    requires Contains(p, sep)
    ensures Contains(p + x, sep)
  {
    var j := FindFrom(p, sep, 0).value;
    assert (p + x)[j..j + |sep|] == p[j..j + |sep|];
    assert OccursAt(p + x, sep, j);
    ContainsIff(p + x, sep);
  }

  /** A piece of `split()` output: non-empty and free of whitespace. */
  predicate IsWord(w: string)
  {
    w != [] && forall i :: 0 <= i < |w| ==> !IsSpace(w[i])
  }

  /** The longest prefix without whitespace. */
  function WordPrefix(t: string): (w: string)
    ensures |w| <= |t| && w == t[..|w|]
    ensures forall i :: 0 <= i < |w| ==> !IsSpace(w[i])
    ensures |w| == |t| || IsSpace(t[|w|])
    decreases |t|
  {
    if t == [] || IsSpace(t[0]) then [] else [t[0]] + WordPrefix(t[1..])
  }

  /** `s.split()`: the maximal runs of non-whitespace, in order. */
  function Words(s: string): (r: seq<string>)
    ensures forall k :: 0 <= k < |r| ==> IsWord(r[k])
    decreases |s|
  {
    if s == [] then []
    else if IsSpace(s[0]) then Words(s[1..])
    else
      var w := WordPrefix(s);
      assert IsWord(w);
      [w] + Words(s[|w|..])
  }

  lemma {:induction false} WordPrefixOfWord(w: string, rest: string)
    requires IsWord(w)
    requires rest == [] || IsSpace(rest[0])
    ensures WordPrefix(w + rest) == w
    decreases |w|
  {
    if |w| > 1 {
      assert (w + rest)[1..] == w[1..] + rest;
      WordPrefixOfWord(w[1..], rest);
    } else {
      assert (w + rest)[1..] == rest;
    }
  }

  /** `' '.join(words).split() == words` for words without whitespace. */
  lemma {:induction false} WordsOfJoin(ws: seq<string>)
    requires forall k :: 0 <= k < |ws| ==> IsWord(ws[k])
    ensures Words(JoinWith(" ", ws)) == ws
    decreases |ws|
  {
    if ws == [] {
    } else if |ws| == 1 {
      var w := ws[0];
      WordPrefixOfWord(w, []);
      assert w + [] == w;
      assert w[|w|..] == [];
    } else {
      var w := ws[0];
      var j := JoinWith(" ", ws[1..]);
      var s := w + " " + j;
      assert s == w + (" " + j);
      WordPrefixOfWord(w, " " + j);
      assert s[|w|..] == " " + j;
      assert (" " + j)[1..] == j;
      WordsOfJoin(ws[1..]);
    }
  }
}
