/** Scanners for the regular expressions of the LinkedIn extractors in
    `parsers/profile_parser.py`. Each function reproduces Python `re` for its
    one pattern: `re.search` reports the match that starts leftmost, a lazy
    quantifier takes the shortest extension after which the rest of the
    pattern matches, a greedy one the longest. `\d` is read as 0-9 and
    IGNORECASE as folding A-Z. */
module LinkedInScan {
  import opened Common
  import opened Text

  predicate IsAsciiLetter(c: char)
  {
    'a' <= c <= 'z' || 'A' <= c <= 'Z'
  }

  predicate IsDigit(c: char)
  {
    '0' <= c <= '9'
  }

  /** The end of the whitespace run starting at `k` (a greedy `\s*`). */
  function SpaceRunEnd(s: string, k: nat): (j: nat)
    requires k <= |s|
    ensures k <= j <= |s|
    ensures forall m :: k <= m < j ==> IsSpace(s[m])
    ensures j < |s| ==> !IsSpace(s[j])
    decreases |s| - k
  {
    if k < |s| && IsSpace(s[k]) then SpaceRunEnd(s, k + 1) else k
  }

  /** The first newline at or after `i`, or the end (a greedy `[^\n]*`). */
  function LineEnd(s: string, i: nat): (e: nat)
    requires i <= |s|
    ensures i <= e <= |s|
    ensures forall m :: i <= m < e ==> s[m] != '\n'
    ensures e < |s| ==> s[e] == '\n'
    decreases |s| - i
  {
    if i < |s| && s[i] != '\n' then LineEnd(s, i + 1) else i
  }

  /** The lower-case word `w` occurs at `i`, ignoring the case of the text. */
  predicate WordAt(s: string, i: nat, w: string)
  {
    i + |w| <= |s| && forall j :: 0 <= j < |w| ==> LowerChar(s[i + j]) == w[j]
  }

  /** A word found in a slice is found in the whole text. */
  lemma WordAtSlice(s: string, a: nat, b: nat, m: nat, w: string)
    requires a <= b <= |s|
    ensures WordAt(s[a..b], m, w) ==> WordAt(s, a + m, w)
  {
    if WordAt(s[a..b], m, w) {
      forall q | 0 <= q < |w| ensures LowerChar(s[a + m + q]) == w[q] {
        assert s[a..b][m + q] == s[a + m + q];
      }
    }
  }

  predicate DigitsAt(s: string, i: nat, n: nat)
  {
    i + n <= |s| && forall j :: i <= j < i + n ==> IsDigit(s[j])
  }

  const Months: seq<string> := ["Jan", "Feb", "Mar", "Apr", "May", "Jun",
                                "Jul", "Aug", "Sep", "Oct", "Nov", "Dec"]

  predicate MonthAt(s: string, i: nat)
  {
    i + 3 <= |s| && s[i..i + 3] in Months
  }

  // ----- basic information -----

  /** `^([^\n]+)`: the first line, present iff the text does not start with a newline. */
  function FirstLine(s: string): (r: Option<string>)
    ensures r.Some? <==> s != [] && s[0] != '\n'
    ensures r.Some? ==> r.value != [] && '\n' !in r.value && |r.value| <= |s| && r.value == s[..|r.value|]
    ensures r.Some? && |r.value| < |s| ==> s[|r.value|] == '\n'
  {
    if s != [] && s[0] != '\n' then Some(s[..LineEnd(s, 0)]) else None
  }

  /** `^[^\n]+\n([^\n]+)`: the second line, present iff the first two lines
      both exist and are non-empty. */
  function SecondLine(s: string): (r: Option<string>)
    ensures r.Some? <==> FirstLine(s).Some? && |FirstLine(s).value| + 1 < |s|
                         && s[|FirstLine(s).value| + 1] != '\n'
    ensures r.Some? ==> var f := FirstLine(s).value;
      r.value != [] && '\n' !in r.value && |f| + 1 + |r.value| <= |s|
      && s[|f|] == '\n' && s[|f| + 1..|f| + 1 + |r.value|] == r.value
  {
    if s != [] && s[0] != '\n' then
      var e := LineEnd(s, 0);
      if e + 1 < |s| && s[e + 1] != '\n' then Some(s[e + 1..LineEnd(s, e + 1)]) else None
    else None
  }

  /** The last non-newline position in `[k, e)`. */
  function LastNonNewline(s: string, k: nat, e: nat): (r: Option<nat>)
    requires k <= e <= |s|
    ensures r.Some? ==> k <= r.value < e && s[r.value] != '\n'
    ensures r.Some? ==> forall m :: r.value < m < e ==> s[m] == '\n'
    ensures r.None? ==> forall m :: k <= m < e ==> s[m] == '\n'
    decreases e
  {
    if e <= k then None
    else if s[e - 1] != '\n' then Some(e - 1)
    else LastNonNewline(s, k, e - 1)
  }

  /** `\s*([^\n]+)` after the keyword, ending at `k`. The greedy `\s*` backs
      off only when the whitespace runs to the end of the text; then
      `[^\n]+` takes its last non-newline character. */
  function LocationAfter(s: string, k: nat): (r: Option<string>)
    requires k <= |s|
    ensures r.Some? ==> r.value != [] && '\n' !in r.value
  {
    var j := SpaceRunEnd(s, k);
    if j < |s| then Some(s[j..LineEnd(s, j)])
    else
      match LastNonNewline(s, k, |s|)
      case Some(p) => Some(s[p..LineEnd(s, p)])
      case None => None
  }

  /** `re.search(r'Location\s*([^\n]+)', s, re.IGNORECASE)` from position `i`. */
  function LocationFrom(s: string, i: nat): (r: Option<string>)
    requires i <= |s|
    ensures r.Some? ==> r.value != [] && '\n' !in r.value
    decreases |s| - i
  {
    if i + 8 > |s| then None
    else if WordAt(s, i, "location") then
      match LocationAfter(s, i + 8)
      case Some(g) => Some(g)
      case None => LocationFrom(s, i + 1)
    else LocationFrom(s, i + 1)
  }

  // ----- sections -----

  /** The lookahead `(?=stop1|stop2|$)` at `e`; `$` also matches just before a final newline. */
  predicate SectionEndAt(s: string, e: nat, stop1: string, stop2: string)
    requires e <= |s|
  {
    WordAt(s, e, stop1) || WordAt(s, e, stop2) || e == |s| || (e == |s| - 1 && s[e] == '\n')
  }

  /** The lazy `.+?`: the first position from `e` on where the lookahead holds. */
  function LazyEnd(s: string, e: nat, stop1: string, stop2: string): (r: nat)
    requires e <= |s|
    ensures e <= r <= |s| && SectionEndAt(s, r, stop1, stop2)
    ensures forall m :: e <= m < r ==> !SectionEndAt(s, m, stop1, stop2)
    decreases |s| - e
  {
    if SectionEndAt(s, e, stop1, stop2) then e else LazyEnd(s, e + 1, stop1, stop2)
  }

  /** `re.search(heading + r'\s*(.+?)(?=stop1|stop2|$)', s, re.DOTALL | re.IGNORECASE)`
      from `i`. The body starts after the whitespace following the heading and
      runs to the first stop word or the end; when only whitespace follows
      the heading, the greedy `\s*` gives back one character for `.+?`. The
      search fails only when the heading never occurs with text after it. */
  function SectionFrom(s: string, heading: string, stop1: string, stop2: string, i: nat): (r: Option<string>)
    requires i <= |s|
    ensures r.Some? ==> r.value != []
    ensures r.None? ==> forall m :: i <= m && m + |heading| < |s| ==> !WordAt(s, m, heading)
    decreases |s| - i
  {
    if i + |heading| >= |s| then None
    else if WordAt(s, i, heading) then
      var j := SpaceRunEnd(s, i + |heading|);
      if j < |s| then Some(s[j..LazyEnd(s, j + 1, stop1, stop2)])
      else Some(s[|s| - 1..])
    else SectionFrom(s, heading, stop1, stop2, i + 1)
  }

  function ExperienceSection(s: string): Option<string>
  {
    SectionFrom(s, "experience", "education", "skills", 0)
  }

  function EducationSection(s: string): Option<string>
  {
    SectionFrom(s, "education", "experience", "skills", 0)
  }

  function SkillsSection(s: string): Option<string>
  {
    SectionFrom(s, "skills", "languages", "interests", 0)
  }

  // ----- splitting -----

  /** The end of the ASCII letter run starting at `k` (a greedy `[A-Za-z]*`). */
  function LetterRunEnd(s: string, k: nat): (j: nat)
    requires k <= |s|
    ensures k <= j <= |s|
    ensures j < |s| ==> !IsAsciiLetter(s[j])
    decreases |s| - k
  {
    if k < |s| && IsAsciiLetter(s[k]) then LetterRunEnd(s, k + 1) else k
  }

  /** The three `re.split` separators, each matching one character. */
  datatype Break =
    | RoleBreak    // \n(?=[A-Za-z]+ · )
    | EntryBreak   // \n(?=[A-Za-z])
    | SkillBreak   // [•\n]

  predicate BreakAt(b: Break, s: string, i: nat)
    requires i < |s|
  {
    match b
    case RoleBreak =>
      s[i] == '\n' && var j := LetterRunEnd(s, i + 1); j > i + 1 && OccursAt(s, " \U{00B7} ", j)
    case EntryBreak => s[i] == '\n' && i + 1 < |s| && IsAsciiLetter(s[i + 1])
    case SkillBreak => s[i] == '\U{2022}' || s[i] == '\n'
  }

  /** `re.split` from `i`, with the current piece starting at `start`. */
  function PiecesFrom(b: Break, s: string, start: nat, i: nat): (r: seq<string>)
    requires start <= i <= |s|
    ensures |r| >= 1
    decreases |s| - i
  {
    if i == |s| then [s[start..]]
    else if BreakAt(b, s, i) then [s[start..i]] + PiecesFrom(b, s, i + 1, i + 1)
    else PiecesFrom(b, s, start, i + 1)
  }

  function Pieces(b: Break, s: string): seq<string>
  {
    PiecesFrom(b, s, 0, 0)
  }

  predicate SkillFree(p: string)
  {
    forall m :: 0 <= m < |p| ==> p[m] != '\U{2022}' && p[m] != '\n'
  }

  /** No piece of a skills split holds a bullet or a newline. */
  lemma {:induction false} SkillPiecesClean(s: string, start: nat, i: nat)
    requires start <= i <= |s|
    requires forall m :: start <= m < i ==> s[m] != '\U{2022}' && s[m] != '\n'
    ensures forall k :: 0 <= k < |PiecesFrom(SkillBreak, s, start, i)| ==>
      SkillFree(PiecesFrom(SkillBreak, s, start, i)[k])
    decreases |s| - i
  {
    if i == |s| {
      var p := s[start..];
      assert SkillFree(p);
      assert PiecesFrom(SkillBreak, s, start, i) == [p];
    } else if BreakAt(SkillBreak, s, i) {
      var p := s[start..i];
      assert SkillFree(p);
      SkillPiecesClean(s, i + 1, i + 1);
      var rest := PiecesFrom(SkillBreak, s, i + 1, i + 1);
      var r := [p] + rest;
      assert r == PiecesFrom(SkillBreak, s, start, i);
      forall k | 0 <= k < |r|
        ensures SkillFree(r[k])
      {
        if k > 0 {
          assert r[k] == rest[k - 1];
        }
      }
    } else {
      assert PiecesFrom(SkillBreak, s, start, i) == PiecesFrom(SkillBreak, s, start, i + 1);
      SkillPiecesClean(s, start, i + 1);
    }
  }

  // ----- fields of an experience role -----

  /** `(.+?) · (.+?)\n` at `i`: both groups stay on the line of `i`, the
      first ends at the first " · " after `i`, the second at the newline. */
  function CompanyTitleAt(s: string, i: nat): (r: Option<(string, string)>)
    requires i <= |s|
    ensures r.Some? ==> r.value.0 != [] && r.value.1 != [] && '\n' !in r.value.0 && '\n' !in r.value.1
  {
    if i < |s| && s[i] != '\n' then
      var nl := LineEnd(s, i);
      match FindFrom(s, " \U{00B7} ", i + 1)
      case Some(a) =>
        if nl < |s| && a + 3 < nl then Some((s[i..a], s[a + 3..nl])) else None
      case None => None
    else None
  }

  function CompanyTitleFrom(s: string, i: nat): (r: Option<(string, string)>)
    requires i <= |s|
    ensures r.Some? ==> r.value.0 != [] && r.value.1 != [] && '\n' !in r.value.0 && '\n' !in r.value.1
    decreases |s| - i
  {
    if i == |s| then None
    else if CompanyTitleAt(s, i).Some? then CompanyTitleAt(s, i)
    else CompanyTitleFrom(s, i + 1)
  }

  /** `(?:Jan|...|Dec)\s+\d{4}` at `i`: the position after the year. */
  function MonthYearEnd(s: string, i: nat): (r: Option<nat>)
    requires i <= |s|
    ensures r.Some? ==> i + 8 <= r.value <= |s| && MonthAt(s, i) && DigitsAt(s, r.value - 4, 4)
  {
    if MonthAt(s, i) && i + 3 < |s| && IsSpace(s[i + 3]) then
      var j := SpaceRunEnd(s, i + 3);
      if DigitsAt(s, j, 4) then Some(j + 4) else None
    else None
  }

  /** `MONTH\s+\d{4}\s*-\s*(?:Present|MONTH\s+\d{4})` at `i`: the end of the match. */
  function RoleDatesAt(s: string, i: nat): (r: Option<nat>)
    requires i <= |s|
    ensures r.Some? ==> i + 8 <= r.value <= |s| && MonthAt(s, i)
  {
    match MonthYearEnd(s, i)
    case None => None
    case Some(p) =>
      var m := SpaceRunEnd(s, p);
      if m < |s| && s[m] == '-' then
        var n := SpaceRunEnd(s, m + 1);
        if OccursAt(s, "Present", n) then Some(n + 7) else MonthYearEnd(s, n)
      else None
  }

  /** A month name at `i` is still at the start of a slice taken from `i`. */
  lemma MonthAtSlice(s: string, i: nat, e: nat)
    requires i + 3 <= e <= |s| && MonthAt(s, i)
    ensures MonthAt(s[i..e], 0)
  {
    assert s[i..e][0..3] == s[i..i + 3];
  }

  function RoleDatesFrom(s: string, i: nat): (r: Option<string>)
    requires i <= |s|
    ensures r.Some? ==> r.value != [] && MonthAt(r.value, 0)
    decreases |s| - i
  {
    if i == |s| then None
    else
      match RoleDatesAt(s, i)
      case Some(e) =>
        MonthAtSlice(s, i, e);
        Some(s[i..e])
      case None => RoleDatesFrom(s, i + 1)
  }

  /** The lookahead `(?=\n\n|$)` at `e`. */
  predicate ParagraphEndAt(s: string, e: nat)
    requires e <= |s|
  {
    OccursAt(s, "\n\n", e) || e == |s| || (e == |s| - 1 && s[e] == '\n')
  }

  function ParagraphEnd(s: string, e: nat): (r: nat)
    requires e <= |s|
    ensures e <= r <= |s| && ParagraphEndAt(s, r)
    ensures forall m :: e <= m < r ==> !ParagraphEndAt(s, m)
    decreases |s| - e
  {
    if ParagraphEndAt(s, e) then e else ParagraphEnd(s, e + 1)
  }

  /** `MONTH\s+\d{4}.+?\n(.+?)(?=\n\n|$)` with DOTALL at `i`. The lazy `.+?`
      takes at least one character, so a newline right after the year is
      skipped; the description starts after the next newline and runs to the
      first blank line or the end. */
  function DescriptionAt(s: string, i: nat): (r: Option<string>)
    requires i <= |s|
    ensures r.Some? ==> r.value != []
  {
    match MonthYearEnd(s, i)
    case None => None
    case Some(p) =>
      if p < |s| then
        var x := LineEnd(s, p + 1);
        if x + 1 < |s| then Some(s[x + 1..ParagraphEnd(s, x + 2)]) else None
      else None
  }

  function DescriptionFrom(s: string, i: nat): (r: Option<string>)
    requires i <= |s|
    ensures r.Some? ==> r.value != []
    decreases |s| - i
  {
    if i == |s| then None
    else if DescriptionAt(s, i).Some? then DescriptionAt(s, i)
    else DescriptionFrom(s, i + 1)
  }

  // ----- fields of an education entry -----

  /** `(.+?)\n`: from the first non-newline character that has a newline
      after it, up to that newline. */
  function SchoolFrom(s: string, i: nat): (r: Option<string>)
    requires i <= |s|
    ensures r.Some? ==> r.value != [] && '\n' !in r.value
    decreases |s| - i
  {
    if i == |s| then None
    else if s[i] != '\n' && LineEnd(s, i) < |s| then Some(s[i..LineEnd(s, i)])
    else SchoolFrom(s, i + 1)
  }

  const DegreeWords: seq<string> := ["Bachelor", "Master", "PhD", "BSc", "MSc", "MBA", "MD", "JD"]

  /** The first alternative of `(?:Bachelor|...|JD)` occurring at `i`, from list position `k`. */
  function DegreeWordFrom(s: string, i: nat, k: nat): (r: Option<string>)
    requires k <= |DegreeWords|
    ensures r.Some? ==> r.value in DegreeWords && OccursAt(s, r.value, i)
    decreases |DegreeWords| - k
  {
    if k == |DegreeWords| then None
    else if OccursAt(s, DegreeWords[k], i) then Some(DegreeWords[k])
    else DegreeWordFrom(s, i, k + 1)
  }

  /** `(?:Bachelor|...|JD).+?(?:\n|$)` at `i`: the keyword, at least one more
      character of its line, and the newline ending the line if there is one. */
  function DegreeAt(s: string, i: nat): (r: Option<string>)
    requires i <= |s|
    ensures r.Some? ==> exists w :: w in DegreeWords && |w| < |r.value| && r.value[..|w|] == w
  {
    match DegreeWordFrom(s, i, 0)
    case None => None
    case Some(w) =>
      var k := i + |w|;
      if k < |s| && s[k] != '\n' then
        var e := LineEnd(s, k + 1);
        var m := s[i..if e < |s| then e + 1 else e];
        assert m[..|w|] == s[i..k] == w;
        Some(m)
      else None
  }

  function DegreeFrom(s: string, i: nat): (r: Option<string>)
    requires i <= |s|
    ensures r.Some? ==> exists w :: w in DegreeWords && |w| < |r.value| && r.value[..|w|] == w
    decreases |s| - i
  {
    if i == |s| then None
    else if DegreeAt(s, i).Some? then DegreeAt(s, i)
    else DegreeFrom(s, i + 1)
  }

  /** `\d{4}\s*-\s*(?:\d{4}|Present)` at `i`: the end of the match. */
  function EduDatesAt(s: string, i: nat): (r: Option<nat>)
    requires i <= |s|
    ensures r.Some? ==> i + 9 <= r.value <= |s| && DigitsAt(s, i, 4)
  {
    if DigitsAt(s, i, 4) then
      var m := SpaceRunEnd(s, i + 4);
      if m < |s| && s[m] == '-' then
        var n := SpaceRunEnd(s, m + 1);
        if DigitsAt(s, n, 4) then Some(n + 4)
        else if OccursAt(s, "Present", n) then Some(n + 7)
        else None
      else None
    else None
  }

  function EduDatesFrom(s: string, i: nat): (r: Option<string>)
    requires i <= |s|
    ensures r.Some? ==> |r.value| >= 9 && DigitsAt(r.value, 0, 4)
    decreases |s| - i
  {
    if i == |s| then None
    else
      match EduDatesAt(s, i)
      case Some(e) =>
        assert forall j :: 0 <= j < 4 ==> s[i..e][j] == s[i + j];
        Some(s[i..e])
      case None => EduDatesFrom(s, i + 1)
  }
}
