/** `parsers/profile_parser.py`, text side: cleaning of resume text, the
    LinkedIn field extractors and their rendering, and the assembly of all
    sources into one profile text. The text PyPDF2 extracts from each page is
    an input; the GitHub side of the same file is module `GitHubProfile`. */
module ProfileParser {
  import opened Common
  import opened Text
  import opened LinkedInScan

  // ===== _clean_text =====

  /** `re.sub(r'\s+', ' ', s)`: every maximal whitespace run becomes one space. */
  function CollapseSpaces(s: string): (r: string)
    ensures forall i :: 0 <= i < |r| ==> r[i] == ' ' || (r[i] in s && !IsSpace(r[i]))
    ensures forall i :: 0 <= i < |r| - 1 ==> !(r[i] == ' ' && r[i + 1] == ' ')
    ensures s == [] <==> r == []
    ensures s != [] && !IsSpace(s[0]) ==> r[0] == s[0]
    decreases |s|
  {
    if s == [] then []
    else if IsSpace(s[0]) then
      var j := SpaceRunEnd(s, 0);
      var rest := CollapseSpaces(s[j..]);
      assert forall c :: c in s[j..] ==> c in s;
      [' '] + rest
    else
      var rest := CollapseSpaces(s[1..]);
      assert forall c :: c in s[1..] ==> c in s;
      [s[0]] + rest
  }

  predicate IsWordChar(c: char)
  {
    IsAsciiLetter(c) || IsDigit(c) || c == '_'
  }

  /** The characters `[^\w\s.,;:!?-]` does not match. */
  predicate Kept(c: char)
  {
    IsWordChar(c) || IsSpace(c) || c in ".,;:!?-"
  }

  /** `re.sub(r'[^\w\s.,;:!?-]', '', s)`: drops every other character. */
  function RemoveSpecial(s: string): (r: string)
    ensures |r| <= |s|
    ensures forall i :: 0 <= i < |r| ==> Kept(r[i]) && r[i] in s
    decreases |s|
  {
    if s == [] then []
    else
      var rest := RemoveSpecial(s[1..]);
      assert forall c :: c in s[1..] ==> c in s;
      (if Kept(s[0]) then [s[0]] else []) + rest
  }

  /** `s.replace('\r', '\n')` */
  function ReplaceCR(s: string): (r: string)
    ensures |r| == |s|
    ensures forall i :: 0 <= i < |s| ==> r[i] == (if s[i] == '\r' then '\n' else s[i])
  {
    seq(|s|, i requires 0 <= i < |s| => if s[i] == '\r' then '\n' else s[i])
  }

  /** The last newline in `[k, e)`. */
  function LastNewlineIn(s: string, k: nat, e: nat): (r: Option<nat>)
    requires k <= e <= |s|
    ensures r.Some? ==> k <= r.value < e && s[r.value] == '\n'
    ensures r.None? ==> forall m :: k <= m < e ==> s[m] != '\n'
    decreases e
  {
    if e <= k then None
    else if s[e - 1] == '\n' then Some(e - 1)
    else LastNewlineIn(s, k, e - 1)
  }

  /** `re.sub(r'\n\s*\n+', '\n\n', s)` from `i`: a newline followed by a
      whitespace run holding another newline becomes one blank line, up to
      and including the last newline of the run. */
  function BlankLinesFrom(s: string, i: nat): string
    requires i <= |s|
    decreases |s| - i
  {
    if i == |s| then []
    else if s[i] == '\n' then
      match LastNewlineIn(s, i + 1, SpaceRunEnd(s, i + 1))
      case Some(p) => "\n\n" + BlankLinesFrom(s, p + 1)
      case None => [s[i]] + BlankLinesFrom(s, i + 1)
    else [s[i]] + BlankLinesFrom(s, i + 1)
  }

  /** Text without newlines passes the blank-line step unchanged. */
  lemma {:induction false} BlankLinesIdentity(s: string, i: nat)
    requires i <= |s|
    requires forall m :: i <= m < |s| ==> s[m] != '\n'
    ensures BlankLinesFrom(s, i) == s[i..]
    decreases |s| - i
  {
    if i < |s| {
      BlankLinesIdentity(s, i + 1);
      assert s[i..] == [s[i]] + s[i + 1..];
    }
  }

  /** `_clean_text`. */
  function CleanText(s: string): string
  {
    Strip(BlankLinesFrom(ReplaceCR(RemoveSpecial(CollapseSpaces(s))), 0))
  }

  /** The first substitution leaves no line break, so the last two steps
      change nothing: cleaning is stripping the filtered, collapsed text. */
  lemma CleanTextSteps(s: string)
    ensures var b := RemoveSpecial(CollapseSpaces(s));
      CleanText(s) == Strip(b) && OneLine(b)
  {
    var a := CollapseSpaces(s);
    var b := RemoveSpecial(a);
    forall i | 0 <= i < |b| ensures IsSpace(b[i]) ==> b[i] == ' ' {
      var k :| 0 <= k < |a| && a[k] == b[i];
    }
    assert ReplaceCR(b) == b;
    BlankLinesIdentity(b, 0);
    assert b[0..] == b;
  }

  /** Text whose only whitespace is the plain space: the shape of what is left to strip. */
  predicate OneLine(b: string)
  {
    forall i :: 0 <= i < |b| ==> Kept(b[i]) && (IsSpace(b[i]) ==> b[i] == ' ')
  }

  lemma StripOneLine(b: string)
    requires OneLine(b)
    ensures var r := Strip(b);
      OneLine(r) && (r == [] || (!IsSpace(r[0]) && !IsSpace(r[|r| - 1])))
  {
    var r := Strip(b);
    StripChars(b);
    forall i | 0 <= i < |r| ensures Kept(r[i]) && (IsSpace(r[i]) ==> r[i] == ' ') {
      var k :| 0 <= k < |b| && b[k] == r[i];
    }
    StripEnds(b);
  }

  /** Cleaned text is one line of kept characters whose only whitespace is
      the plain space, with none at either end. */
  lemma CleanTextShape(s: string)
    ensures var r := CleanText(s);
      OneLine(r) && (r == [] || (!IsSpace(r[0]) && !IsSpace(r[|r| - 1])))
  {
    CleanTextSteps(s);
    StripOneLine(RemoveSpecial(CollapseSpaces(s)));
  }

  lemma CollapseBlank(s: string)
    requires AllSpace(s)
    ensures AllSpace(RemoveSpecial(CollapseSpaces(s)))
  {
    var a := CollapseSpaces(s);
    var b := RemoveSpecial(a);
    assert forall i :: 0 <= i < |a| ==> a[i] == ' ';
    forall i | 0 <= i < |b| ensures IsSpace(b[i]) {
      var k :| 0 <= k < |a| && a[k] == b[i];
    }
  }

  /** All-whitespace text cleans to the empty string. */
  lemma CleanTextBlank(s: string)
    requires AllSpace(s)
    ensures CleanText(s) == []
  {
    CleanTextSteps(s);
    CollapseBlank(s);
    StripAllSpace(RemoveSpecial(CollapseSpaces(s)));
  }

  /** Cleaning is not idempotent: a symbol removed between two spaces leaves
      a double space, which only a second pass collapses. */
  lemma CleanTextNotIdempotent()
    ensures CleanText("a @ b") == "a  b"
    ensures CleanText("a  b") == "a b"
  {
    CleanFirstPass();
    CleanSecondPass();
  }

  lemma CleanFirstPass()
    ensures CleanText("a @ b") == "a  b"
  {
    CollapseFixpoint("a @ b");
    RemoveSymbol();
    StripUnpadded("a  b");
    CleanVia("a @ b", "a @ b", "a  b", "a  b");
  }

  lemma RemoveSymbol()
    ensures RemoveSpecial("a @ b") == "a  b"
  {
    assert "a @ b" == "a " + ['@'] + " b";
    assert "a  b" == "a " + " b";
    RemoveOne("a ", '@', " b");
  }

  /** Removing one symbol between kept text. */
  lemma RemoveOne(x: string, c: char, y: string)
    requires forall i :: 0 <= i < |x| ==> Kept(x[i])
    requires forall i :: 0 <= i < |y| ==> Kept(y[i])
    requires !Kept(c)
    ensures RemoveSpecial(x + [c] + y) == x + y
  {
    assert [c][1..] == [];
    assert RemoveSpecial([c]) == [];
    RemoveSpecialAppend(x, [c]);
    RemoveSpecialKept(x);
    assert RemoveSpecial(x + [c]) == x;
    RemoveSpecialAppend(x + [c], y);
    RemoveSpecialKept(y);
  }

  lemma CleanSecondPass()
    ensures CleanText("a  b") == "a b"
  {
    CollapseDoubleSpace();
    KeepSingleSpaced();
    StripSingleSpaced();
    CleanVia("a  b", "a b", "a b", "a b");
  }

  lemma KeepSingleSpaced()
    ensures RemoveSpecial("a b") == "a b"
  {
    RemoveSpecialKept("a b");
  }

  lemma StripSingleSpaced()
    ensures Strip("a b") == "a b"
  {
    StripUnpadded("a b");
  }

  lemma CleanVia(s: string, a: string, b: string, r: string)
    requires CollapseSpaces(s) == a && RemoveSpecial(a) == b && Strip(b) == r
    ensures CleanText(s) == r
  {
    CleanTextSteps(s);
  }

  /** Single-spaced text is left alone by the whitespace collapse. */
  lemma {:induction false} CollapseFixpoint(s: string)
    requires forall i :: 0 <= i < |s| && IsSpace(s[i]) ==> s[i] == ' '
    requires forall i :: 0 <= i < |s| - 1 ==> !(s[i] == ' ' && s[i + 1] == ' ')
    ensures CollapseSpaces(s) == s
    decreases |s|
  {
    if s != [] {
      if IsSpace(s[0]) {
        assert SpaceRunEnd(s, 0) == 1;
      }
      CollapseFixpoint(s[1..]);
      assert s == [s[0]] + s[1..];
    }
  }

  lemma CollapseDoubleSpace()
    ensures CollapseSpaces("a  b") == "a b"
  {
    CollapseSpaceB();
    assert "a  b"[1..] == "  b";
  }

  lemma CollapseSpaceB()
    ensures CollapseSpaces("  b") == " b"
  {
    assert SpaceRunEnd("  b", 0) == 2;
    assert "  b"[2..] == "b";
    assert CollapseSpaces("b") == "b";
  }

  lemma {:induction false} RemoveSpecialAppend(x: string, y: string)
    ensures RemoveSpecial(x + y) == RemoveSpecial(x) + RemoveSpecial(y)
    decreases |x|
  {
    if x != [] {
      assert (x + y)[1..] == x[1..] + y;
      RemoveSpecialAppend(x[1..], y);
    } else {
      assert x + y == y;
    }
  }

  /** Text made of kept characters passes the filter unchanged. */
  lemma {:induction false} RemoveSpecialKept(s: string)
    requires forall i :: 0 <= i < |s| ==> Kept(s[i])
    ensures RemoveSpecial(s) == s
    decreases |s|
  {
    if s != [] {
      RemoveSpecialKept(s[1..]);
      assert s == [s[0]] + s[1..];
    }
  }

  // ===== LinkedIn: _extract_basic_info =====

  datatype BasicInfo = BasicInfo(name: Option<string>, headline: Option<string>, location: Option<string>)

  predicate NoNewline(o: Option<string>)
  {
    o.Some? ==> '\n' !in o.value
  }

  function StripOpt(o: Option<string>): (r: Option<string>)
    ensures r.Some? <==> o.Some?
    ensures NoNewline(o) ==> NoNewline(r)
  {
    if o.Some? then
      assert NoNewline(o) ==> '\n' !in Strip(o.value) by {
        if NoNewline(o) {
          StripKeepsOut(o.value, '\n');
        }
      }
      Some(Strip(o.value))
    else None
  }

  lemma StripKeepsOut(x: string, c: char)
    requires c !in x
    ensures c !in Strip(x)
  {
    StripChars(x);
  }

  /** `_extract_basic_info`: the name is the first line, the headline the
      second, the location what follows the word "location". A key is
      present only when its pattern matched. */
  function ExtractBasicInfo(text: string): (r: BasicInfo)
    ensures r.name.Some? <==> text != [] && text[0] != '\n'
    ensures r.headline.Some? ==> r.name.Some?
    ensures NoNewline(r.name) && NoNewline(r.headline) && NoNewline(r.location)
  {
    BasicInfo(StripOpt(FirstLine(text)), StripOpt(SecondLine(text)), StripOpt(LocationFrom(text, 0)))
  }

  // ===== LinkedIn: _extract_experience =====

  /** The keys of one role dictionary; a missing key is `None`. */
  datatype Role = Role(company: Option<string>, title: Option<string>,
                       dateRange: Option<string>, description: Option<string>)

  /** A string whose first and last characters are not whitespace is its own strip. */
  lemma StripUnpadded(x: string)
    requires x != [] && !IsSpace(x[0]) && !IsSpace(x[|x| - 1])
    ensures Strip(x) == x
  {
    assert TrimLeft(x) == x;
  }

  /** A strip keeps a non-space prefix `w` of its argument. */
  lemma StripKeepsPrefix(x: string, w: string)
    requires w != [] && |w| <= |x| && x[..|w|] == w
    requires !IsSpace(w[0]) && !IsSpace(w[|w| - 1])
    ensures |w| <= |Strip(x)| && Strip(x)[..|w|] == w
  {
    assert x[0] == w[0] && x[|w| - 1] == w[|w| - 1];
    assert TrimLeft(x) == x;
    TrimRightKeeps(x, |w|);
  }

  /** One role dictionary from a role's text. */
  function RoleOf(role: string): (r: Role)
    ensures r.company.Some? <==> r.title.Some?
    ensures NoNewline(r.company) && NoNewline(r.title)
    ensures r.dateRange.Some? ==> MonthAt(r.dateRange.value, 0)
  {
    var ct := CompanyTitleFrom(role, 0);
    var dates := RoleDatesFrom(role, 0);
    StripKeepsMonth(dates);
    Role(if ct.Some? then StripOpt(Some(ct.value.0)) else None,
         if ct.Some? then StripOpt(Some(ct.value.1)) else None,
         StripOpt(dates),
         StripOpt(DescriptionFrom(role, 0)))
  }

  /** The roles of a section's pieces, skipping blank pieces, in order. */
  function RolesOf(pieces: seq<string>): (r: seq<Role>)
    ensures |r| <= |pieces|
    decreases |pieces|
  {
    if pieces == [] then []
    else
      var last := pieces[|pieces| - 1];
      RolesOf(pieces[..|pieces| - 1]) + (if Strip(last) == [] then [] else [RoleOf(last)])
  }

  /** `_extract_experience`. */
  method ExtractExperience(text: string) returns (experience: seq<Role>)
    ensures ExperienceSection(text).None? ==> experience == []
    ensures ExperienceSection(text).Some? ==>
      experience == RolesOf(Pieces(RoleBreak, ExperienceSection(text).value))
  {
    experience := [];
    var section := ExperienceSection(text);
    if section.Some? {
      experience := ParseRoles(Pieces(RoleBreak, section.value));
    }
  }

  /** The loop of `_extract_experience` over the split roles. */
  method ParseRoles(roles: seq<string>) returns (experience: seq<Role>)
    ensures experience == RolesOf(roles)
  {
    experience := [];
    for i := 0 to |roles|
      invariant experience == RolesOf(roles[..i])
    {
      assert roles[..i + 1][..i] == roles[..i];
      if Strip(roles[i]) != [] {
        experience := experience + [RoleOf(roles[i])];
      }
    }
    assert roles[..|roles|] == roles;
  }

  /** The number of pieces that are not blank. */
  function NonBlank(pieces: seq<string>): nat
    decreases |pieces|
  {
    if pieces == [] then 0
    else NonBlank(pieces[..|pieces| - 1]) + (if Strip(pieces[|pieces| - 1]) == [] then 0 else 1)
  }

  /** Exactly one role per non-blank piece. */
  lemma {:induction false} RolesOfCount(pieces: seq<string>)
    ensures |RolesOf(pieces)| == NonBlank(pieces)
    decreases |pieces|
  {
    if pieces != [] {
      RolesOfCount(pieces[..|pieces| - 1]);
    }
  }

  /** The newline separators of a role or entry split are exactly what the
      split removes: joining the pieces with newlines restores the text. */
  lemma {:induction false} PiecesJoin(b: Break, s: string, start: nat, i: nat)
    requires b != SkillBreak && start <= i <= |s|
    ensures JoinWith("\n", PiecesFrom(b, s, start, i)) == s[start..]
    decreases |s| - i
  {
    if i == |s| {
    } else if BreakAt(b, s, i) {
      PiecesJoin(b, s, i + 1, i + 1);
      var rest := PiecesFrom(b, s, i + 1, i + 1);
      assert PiecesFrom(b, s, start, i) == [s[start..i]] + rest;
      assert s[start..] == s[start..i] + "\n" + s[i + 1..];
    } else {
      PiecesJoin(b, s, start, i + 1);
    }
  }

  /** A body never runs into a stop word: after its first character, no
      stop word starts inside it. */
  lemma {:induction false} SectionStops(s: string, heading: string, stop1: string, stop2: string, i: nat)
    requires i <= |s|
    ensures var r := SectionFrom(s, heading, stop1, stop2, i);
      r.Some? ==> forall m :: 1 <= m < |r.value| ==> !WordAt(r.value, m, stop1) && !WordAt(r.value, m, stop2)
    decreases |s| - i
  {
    var r := SectionFrom(s, heading, stop1, stop2, i);
    if i + |heading| < |s| {
      if WordAt(s, i, heading) {
        var j := SpaceRunEnd(s, i + |heading|);
        if j < |s| {
          var e := LazyEnd(s, j + 1, stop1, stop2);
          var body := s[j..e];
          assert r == Some(body);
          forall m | 1 <= m < |body|
            ensures !WordAt(body, m, stop1) && !WordAt(body, m, stop2)
          {
            assert !SectionEndAt(s, j + m, stop1, stop2);
            WordAtSlice(s, j, e, m, stop1);
            WordAtSlice(s, j, e, m, stop2);
          }
        } else {
          assert r == Some(s[|s| - 1..]) && |r.value| == 1;
        }
      } else {
        assert r == SectionFrom(s, heading, stop1, stop2, i + 1);
        SectionStops(s, heading, stop1, stop2, i + 1);
      }
    }
  }

  // ===== LinkedIn: _extract_education =====

  datatype Education = Education(school: Option<string>, degree: Option<string>, dateRange: Option<string>)

  /** One education dictionary from an entry's text. */
  function EducationOf(entry: string): (r: Education)
    ensures NoNewline(r.school)
    ensures r.degree.Some? ==> exists w :: w in DegreeWords && |w| <= |r.degree.value| && r.degree.value[..|w|] == w
    ensures r.dateRange.Some? ==> DigitsAt(r.dateRange.value, 0, 4)
  {
    var degree := DegreeFrom(entry, 0);
    var dates := EduDatesFrom(entry, 0);
    StripKeepsDegree(degree);
    StripKeepsYear(dates);
    Education(StripOpt(SchoolFrom(entry, 0)), StripOpt(degree), StripOpt(dates))
  }

  /** A strip keeps the month a role's dates start with. */
  lemma StripKeepsMonth(dates: Option<string>)
    requires dates.Some? ==> MonthAt(dates.value, 0)
    ensures dates.Some? ==> MonthAt(Strip(dates.value), 0)
  {
    if dates.Some? {
      var x := dates.value;
      var m := x[..3];
      MonthUnpadded(m);
      StripKeepsPrefix(x, m);
      assert Strip(x)[0..3] == m;
    }
  }

  /** A strip keeps the year an education's dates start with. */
  lemma StripKeepsYear(dates: Option<string>)
    requires dates.Some? ==> DigitsAt(dates.value, 0, 4)
    ensures dates.Some? ==> DigitsAt(Strip(dates.value), 0, 4)
  {
    if dates.Some? {
      var x := dates.value;
      assert IsDigit(x[0]) && IsDigit(x[3]);
      StripKeepsPrefix(x, x[..4]);
      assert forall j :: 0 <= j < 4 ==> Strip(x)[j] == x[..4][j] == x[j];
    }
  }

  /** A strip keeps the degree word a degree line starts with. */
  lemma StripKeepsDegree(degree: Option<string>)
    requires degree.Some? ==> exists w :: w in DegreeWords && |w| < |degree.value| && degree.value[..|w|] == w
    ensures degree.Some? ==>
      exists w :: w in DegreeWords && |w| <= |Strip(degree.value)| && Strip(degree.value)[..|w|] == w
  {
    if degree.Some? {
      var w :| w in DegreeWords && |w| < |degree.value| && degree.value[..|w|] == w;
      DegreeWordUnpadded(w);
      StripKeepsPrefix(degree.value, w);
    }
  }

  lemma MonthUnpadded(m: string)
    requires m in Months
    ensures |m| == 3 && !IsSpace(m[0]) && !IsSpace(m[2])
  {
  }

  lemma DegreeWordUnpadded(w: string)
    requires w in DegreeWords
    ensures w != [] && !IsSpace(w[0]) && !IsSpace(w[|w| - 1])
  {
  }

  function EducationsOf(pieces: seq<string>): (r: seq<Education>)
    ensures |r| <= |pieces|
    decreases |pieces|
  {
    if pieces == [] then []
    else
      var last := pieces[|pieces| - 1];
      EducationsOf(pieces[..|pieces| - 1]) + (if Strip(last) == [] then [] else [EducationOf(last)])
  }

  /** `_extract_education`. */
  method ExtractEducation(text: string) returns (education: seq<Education>)
    ensures EducationSection(text).None? ==> education == []
    ensures EducationSection(text).Some? ==>
      education == EducationsOf(Pieces(EntryBreak, EducationSection(text).value))
  {
    education := [];
    var section := EducationSection(text);
    if section.Some? {
      education := ParseEducations(Pieces(EntryBreak, section.value));
    }
  }

  /** The loop of `_extract_education` over the split entries. */
  method ParseEducations(entries: seq<string>) returns (education: seq<Education>)
    ensures education == EducationsOf(entries)
  {
    education := [];
    for i := 0 to |entries|
      invariant education == EducationsOf(entries[..i])
    {
      assert entries[..i + 1][..i] == entries[..i];
      if Strip(entries[i]) != [] {
        education := education + [EducationOf(entries[i])];
      }
    }
    assert entries[..|entries|] == entries;
  }

  // ===== LinkedIn: _extract_skills =====

  /** The stripped, non-empty pieces, in order. */
  function SkillItems(pieces: seq<string>): (r: seq<string>)
    ensures |r| <= |pieces|
    ensures forall k :: 0 <= k < |r| ==> r[k] != [] && Unpadded(r[k])
    decreases |pieces|
  {
    if pieces == [] then []
    else
      var rest := SkillItems(pieces[..|pieces| - 1]);
      var item := Strip(pieces[|pieces| - 1]);
      if item == [] then rest
      else
        StripEnds(pieces[|pieces| - 1]);
        rest + [item]
  }

  lemma {:induction false} SkillItemsFree(pieces: seq<string>)
    requires forall k :: 0 <= k < |pieces| ==> SkillFree(pieces[k])
    ensures forall k :: 0 <= k < |SkillItems(pieces)| ==> SkillFree(SkillItems(pieces)[k])
    decreases |pieces|
  {
    if pieces != [] {
      var last := pieces[|pieces| - 1];
      SkillItemsFree(pieces[..|pieces| - 1]);
      StripChars(last);
      var t := Strip(last);
      forall m | 0 <= m < |t| ensures t[m] != '\U{2022}' && t[m] != '\n' {
        var q :| 0 <= q < |last| && last[q] == t[m];
      }
    }
  }

  /** `_extract_skills`. */
  function ExtractSkills(text: string): seq<string>
  {
    match SkillsSection(text)
    case None => []
    case Some(body) => SkillItems(Pieces(SkillBreak, body))
  }

  /** Every extracted skill is a non-empty, stripped item without a bullet
      or a newline; there are none without a skills heading. */
  lemma ExtractSkillsClean(text: string)
    ensures SkillsSection(text).None? ==> ExtractSkills(text) == []
    ensures var r := ExtractSkills(text);
      forall k :: 0 <= k < |r| ==> r[k] != [] && SkillFree(r[k]) && Strip(r[k]) == r[k]
  {
    var r := ExtractSkills(text);
    if SkillsSection(text).Some? {
      SkillPiecesClean(SkillsSection(text).value, 0, 0);
      SkillItemsFree(Pieces(SkillBreak, SkillsSection(text).value));
    }
    forall k | 0 <= k < |r| ensures Strip(r[k]) == r[k] {
      StripUnpadded(r[k]);
    }
  }

  // ===== LinkedIn: _format_linkedin_data =====

  datatype LinkedInData = LinkedInData(basic: BasicInfo, experience: seq<Role>,
                                       education: seq<Education>, skills: seq<string>)

  /** `d.get(key, '')` */
  function OrEmpty(o: Option<string>): string
  {
    if o.Some? then o.value else ""
  }

  /** The basic block is printed only when the dictionary has some key. */
  function BasicBlock(b: BasicInfo): string
  {
    if b.name.None? && b.headline.None? && b.location.None? then ""
    else "Name: " + OrEmpty(b.name) + "\nHeadline: " + OrEmpty(b.headline)
         + "\nLocation: " + OrEmpty(b.location) + "\n\n"
  }

  /** A role's lines; the description line only for a non-empty description. */
  function RoleLines(r: Role): string
  {
    "- " + OrEmpty(r.title) + " at " + OrEmpty(r.company) + "\n"
    + "  " + OrEmpty(r.dateRange) + "\n"
    + (if OrEmpty(r.description) != "" then "  " + r.description.value + "\n" else "")
    + "\n"
  }

  function EducationLines(e: Education): string
  {
    "- " + OrEmpty(e.degree) + " from " + OrEmpty(e.school) + "\n"
    + (if OrEmpty(e.dateRange) != "" then "  " + e.dateRange.value + "\n" else "")
    + "\n"
  }

  function ExperienceBlock(roles: seq<Role>): string
    decreases |roles|
  {
    if roles == [] then "" else ExperienceBlock(roles[..|roles| - 1]) + RoleLines(roles[|roles| - 1])
  }

  function EducationBlock(es: seq<Education>): string
    decreases |es|
  {
    if es == [] then "" else EducationBlock(es[..|es| - 1]) + EducationLines(es[|es| - 1])
  }

  function SkillLine(skill: string): string
  {
    "- " + skill + "\n"
  }

  /** One "- skill" line per skill. */
  function SkillLines(skills: seq<string>): string
    decreases |skills|
  {
    if skills == [] then "" else SkillLine(skills[0]) + SkillLines(skills[1..])
  }

  lemma {:induction false} SkillLinesSnoc(skills: seq<string>, x: string)
    ensures SkillLines(skills + [x]) == SkillLines(skills) + SkillLine(x)
    decreases |skills|
  {
    if skills != [] {
      assert (skills + [x])[1..] == skills[1..] + [x];
      SkillLinesSnoc(skills[1..], x);
    }
  }

  /** Reads "- item" lines back, up to the first line without the marker. */
  function ReadSkillLines(t: string): seq<string>
    decreases |t|
  {
    if |t| >= 2 && t[..2] == "- " then
      var e := LineEnd(t, 2);
      [t[2..e]] + (if e < |t| then ReadSkillLines(t[e + 1..]) else [])
    else []
  }

  /** The skills block can be read back line by line, as long as no skill
      holds a newline (which `ExtractSkillsClean` guarantees). */
  lemma {:induction false} SkillLinesRoundTrip(skills: seq<string>)
    requires forall k :: 0 <= k < |skills| ==> '\n' !in skills[k]
    ensures ReadSkillLines(SkillLines(skills)) == skills
    decreases |skills|
  {
    if skills != [] {
      var x := skills[0];
      var rest := SkillLines(skills[1..]);
      var t := SkillLines(skills);
      assert t == "- " + x + "\n" + rest;
      assert t[..2] == "- ";
      var e := LineEnd(t, 2);
      assert t[2 + |x|] == '\n';
      assert forall m :: 2 <= m < 2 + |x| ==> t[m] == x[m - 2];
      assert e == 2 + |x|;
      assert t[2..e] == x;
      assert t[e + 1..] == rest;
      SkillLinesRoundTrip(skills[1..]);
    }
  }

  /** The complete rendering. */
  function LinkedInText(d: LinkedInData): string
  {
    "LinkedIn Profile\n\n" + BasicBlock(d.basic)
    + "Experience:\n" + ExperienceBlock(d.experience)
    + "Education:\n" + EducationBlock(d.education)
    + "Skills:\n" + SkillLines(d.skills)
  }

  /** `_format_linkedin_data`. */
  method FormatLinkedIn(d: LinkedInData) returns (text: string)
    ensures text == LinkedInText(d)
  {
    text := "LinkedIn Profile\n\n" + BasicBlock(d.basic);
    text := text + "Experience:\n";
    text := AppendExperience(text, d.experience);
    text := text + "Education:\n";
    text := AppendEducation(text, d.education);
    text := text + "Skills:\n";
    text := AppendSkills(text, d.skills);
  }

  /** The experience loop of `_format_linkedin_data`. */
  method AppendExperience(head: string, roles: seq<Role>) returns (text: string)
    ensures text == head + ExperienceBlock(roles)
  {
    text := head;
    for i := 0 to |roles|
      invariant text == head + ExperienceBlock(roles[..i])
    {
      ExperienceBlockSnoc(roles, i);
      AppendAssoc(head, ExperienceBlock(roles[..i]), RoleLines(roles[i]));
      text := text + RoleLines(roles[i]);
    }
    assert roles[..|roles|] == roles;
  }

  lemma ExperienceBlockSnoc(roles: seq<Role>, i: nat)
    requires i < |roles|
    ensures ExperienceBlock(roles[..i + 1]) == ExperienceBlock(roles[..i]) + RoleLines(roles[i])
  {
    assert roles[..i + 1][..i] == roles[..i];
  }

  lemma AppendAssoc(a: string, b: string, c: string)
    ensures (a + b) + c == a + (b + c)
  {
  }

  /** The education loop of `_format_linkedin_data`. */
  method AppendEducation(head: string, es: seq<Education>) returns (text: string)
    ensures text == head + EducationBlock(es)
  {
    text := head;
    for i := 0 to |es|
      invariant text == head + EducationBlock(es[..i])
    {
      EducationBlockSnoc(es, i);
      AppendAssoc(head, EducationBlock(es[..i]), EducationLines(es[i]));
      text := text + EducationLines(es[i]);
    }
    assert es[..|es|] == es;
  }

  lemma EducationBlockSnoc(es: seq<Education>, i: nat)
    requires i < |es|
    ensures EducationBlock(es[..i + 1]) == EducationBlock(es[..i]) + EducationLines(es[i])
  {
    assert es[..i + 1][..i] == es[..i];
  }

  /** The skills loop of `_format_linkedin_data`. */
  method AppendSkills(head: string, skills: seq<string>) returns (text: string)
    ensures text == head + SkillLines(skills)
  {
    text := head;
    for i := 0 to |skills|
      invariant text == head + SkillLines(skills[..i])
    {
      SkillLinesSnoc(skills[..i], skills[i]);
      assert skills[..i + 1] == skills[..i] + [skills[i]];
      text := text + SkillLine(skills[i]);
    }
    assert skills[..|skills|] == skills;
  }

  // ===== the PDF parsers and parse_all_sources =====

  /** The text of all pages, each followed by a newline. */
  function PagesText(pages: seq<string>): string
    decreases |pages|
  {
    if pages == [] then "" else PagesText(pages[..|pages| - 1]) + pages[|pages| - 1] + "\n"
  }

  method JoinPages(pages: seq<string>) returns (text: string)
    ensures text == PagesText(pages)
  {
    text := "";
    for i := 0 to |pages|
      invariant text == PagesText(pages[..i])
    {
      assert pages[..i + 1][..i] == pages[..i];
      text := text + pages[i] + "\n";
    }
    assert pages[..|pages|] == pages;
  }

  /** `_parse_resume_pdf` on the pages' extracted text. */
  method ParseResume(pages: seq<string>) returns (text: string)
    ensures text == CleanText(PagesText(pages))
  {
    text := JoinPages(pages);
    text := CleanText(text);
  }

  function LinkedInDataOf(text: string): LinkedInData
  {
    var experience := if ExperienceSection(text).Some?
                      then RolesOf(Pieces(RoleBreak, ExperienceSection(text).value)) else [];
    var education := if EducationSection(text).Some?
                     then EducationsOf(Pieces(EntryBreak, EducationSection(text).value)) else [];
    LinkedInData(ExtractBasicInfo(text), experience, education, ExtractSkills(text))
  }

  /** `_parse_linkedin_pdf` on the pages' extracted text. */
  method ParseLinkedIn(pages: seq<string>) returns (formatted: string)
    ensures formatted == LinkedInText(LinkedInDataOf(PagesText(pages)))
  {
    var text := JoinPages(pages);
    var experience := ExtractExperience(text);
    var education := ExtractEducation(text);
    var data := LinkedInData(ExtractBasicInfo(text), experience, education, ExtractSkills(text));
    formatted := FormatLinkedIn(data);
  }

  const SectionSeparator := "\n\n===\n\n"

  /** The tagged sections, in the order resume, GitHub, LinkedIn, of the
      sources that are present. */
  function SourceSections(resume: Option<string>, github: Option<string>, linkedin: Option<string>): seq<string>
  {
    (if resume.Some? then ["RESUME SECTION:\n" + resume.value] else [])
    + (if github.Some? then ["GITHUB SECTION:\n" + github.value] else [])
    + (if linkedin.Some? then ["LINKEDIN SECTION:\n" + linkedin.value] else [])
  }

  /** `parse_all_sources`. A PDF argument is `None` when the bytes are absent
      or empty. `githubText` is the outcome of `_parse_github_profile`: the
      text it returns, or `None` when the GitHub API failed and it raised
      `ValueError`. It is consulted only when both the user name and the
      token are non-empty, and its failure is not caught here. */
  method ParseAllSources(resumePages: Option<seq<string>>, githubUsername: string, githubToken: string,
                         githubText: Option<string>, linkedinPages: Option<seq<string>>) returns (r: Result<string>)
    ensures r.Err? <==> githubUsername != "" && githubToken != "" && githubText.None?
    ensures r.Err? ==> r.error == ValueError
    ensures r.Ok? ==>
      var resume := if resumePages.Some? then Some(CleanText(PagesText(resumePages.value))) else None;
      var github := if githubUsername != "" && githubToken != "" then githubText else None;
      var linkedin := if linkedinPages.Some? then Some(LinkedInText(LinkedInDataOf(PagesText(linkedinPages.value)))) else None;
      r.value == "\n\n" + JoinWith(SectionSeparator, SourceSections(resume, github, linkedin)) + "\n"
  {
    var resume: Option<string> := None;
    if resumePages.Some? {
      var t := ParseResume(resumePages.value);
      resume := Some(t);
    }
    var github: Option<string> := None;
    if githubUsername != "" && githubToken != "" {
      if githubText.None? {
        return Err(ValueError);
      }
      github := githubText;
    }
    var linkedin: Option<string> := None;
    if linkedinPages.Some? {
      var t := ParseLinkedIn(linkedinPages.value);
      linkedin := Some(t);
    }
    r := Ok("\n\n" + JoinWith(SectionSeparator, SourceSections(resume, github, linkedin)) + "\n");
  }

  /** One section per present source, each starting with its tag. */
  lemma SourceSectionsTagged(resume: Option<string>, github: Option<string>, linkedin: Option<string>)
    ensures var s := SourceSections(resume, github, linkedin);
      |s| == (if resume.Some? then 1 else 0) + (if github.Some? then 1 else 0) + (if linkedin.Some? then 1 else 0)
      && (resume.Some? ==> s[0] == "RESUME SECTION:\n" + resume.value)
      && (linkedin.Some? ==> s[|s| - 1] == "LINKEDIN SECTION:\n" + linkedin.value)
  {
  }
}
