/**
 * The three regular expressions of the shader pre-processor, each written out as a
 * recogniser: the specialization-constant declaration, the include directive and the
 * OpenGL version number. `Find` is Matcher.find on a fresh matcher: the leftmost position
 * at which the pattern matches.
 *
 * Every quantifier of the patterns is followed by a character outside its class (or by the
 * end of the text), so the backtracking matcher settles on the longest run at each step;
 * the recognisers take the longest run directly.
 */
module ShaderPatterns {
  import opened JavaLang
  import opened Wrappers

  /** `\w`, `\s`, `\d` and the two bracketed classes of the patterns. */
  datatype CharClass = Word | Space | Digit | ConstValue | IncludePath

  predicate IsWordChar(c: char)
  {
    ('a' <= c <= 'z') || ('A' <= c <= 'Z') || ('0' <= c <= '9') || c == '_'
  }

  predicate InClass(cl: CharClass, c: char)
  {
    match cl
    case Word => IsWordChar(c)
    case Space => c == ' ' || c == '\t' || c == '\n' || c as int == 0x0B || c as int == 0x0C || c == '\r'
    case Digit => '0' <= c <= '9'
    case ConstValue => IsWordChar(c) || c in ".\"'+-*/%"
    case IncludePath => IsWordChar(c) || c in "/._-"
  }

  /** The end of the longest run of `cl` characters starting at `k`. */
  function RunEnd(s: string, k: nat, cl: CharClass): (e: nat)
    requires k <= |s|
    ensures k <= e <= |s|
    decreases |s| - k
  {
    if k == |s| || !InClass(cl, s[k]) then k else RunEnd(s, k + 1, cl)
  }

  /** The run is the longest one: class characters up to its end, and none at its end. */
  lemma {:induction false} RunEndIsLongest(s: string, k: nat, cl: CharClass)
    requires k <= |s|
    ensures forall j :: k <= j < RunEnd(s, k, cl) ==> InClass(cl, s[j])
    ensures RunEnd(s, k, cl) == |s| || !InClass(cl, s[RunEnd(s, k, cl)])
    decreases |s| - k
  {
    if k < |s| && InClass(cl, s[k]) {
      RunEndIsLongest(s, k + 1, cl);
    }
  }

  /** A run is as long as the class characters that start there. */
  lemma {:induction false} RunEndExact(s: string, k: nat, n: nat, cl: CharClass)
    requires k + n <= |s|
    requires forall j :: k <= j < k + n ==> InClass(cl, s[j])
    requires k + n == |s| || !InClass(cl, s[k + n])
    ensures RunEnd(s, k, cl) == k + n
    decreases n
  {
    if n > 0 {
      RunEndExact(s, k + 1, n - 1, cl);
    }
  }

  /** The run over a piece `t` of class characters that sits at `k`. */
  lemma RunOver(s: string, k: nat, t: string, cl: CharClass)
    requires Seg(s, k, t) && AllIn(cl, t)
    requires k + |t| == |s| || !InClass(cl, s[k + |t|])
    ensures RunEnd(s, k, cl) == k + |t|
  {
    forall j | k <= j < k + |t|
      ensures InClass(cl, s[j])
    {
      assert s[j] == s[k..k + |t|][j - k];
    }
    RunEndExact(s, k, |t|, cl);
  }

  datatype Pattern = SpecialConstPattern | IncludePattern | GlVersionPattern

  /**
   * A match: where it starts and ends, and the capture groups that took part in it, by
   * number (a group that did not take part is absent, as Matcher.group gives null). Only the
   * groups the pre-processor reads are recorded.
   */
  datatype Match = Match(start: nat, end: nat, groups: map<nat, string>)

  /**
   * `\b(special)\s+(const)\s+(\w+)\s+(\w+)(\s*?=\s*?([V]+))?\s*?;` at `k`, where V is the
   * class of the ConstValue characters (word characters and the eight characters listed in
   * InClass): group 3 is the type, group 4 the name and group 6, when present, the default value.
   * The word boundary before "special" holds at the start of the text or after a non-word character.
   */
  function SpecialConstAt(s: string, k: nat): (r: Option<Match>)
    requires k <= |s|
    ensures r.Some? ==> r.value.start == k && k < r.value.end <= |s|
                        && 3 in r.value.groups && 4 in r.value.groups
  {
    if !(k == 0 || !IsWordChar(s[k - 1])) || !MatchAt(s, "special", k) then None
    else ConstKeywordAt(s, k, RunEnd(s, k + 7, Space))
  }

  /** The rest of a declaration from `a`, after "special" and the spaces that follow it. */
  function ConstKeywordAt(s: string, k: nat, a: nat): (r: Option<Match>)
    requires k + 7 <= a <= |s|
    ensures r.Some? ==> r.value.start == k && k < r.value.end <= |s|
                        && 3 in r.value.groups && 4 in r.value.groups
  {
    if a == k + 7 || !MatchAt(s, "const", a) then None
    else TypeAndNameAt(s, k, a + 5, RunEnd(s, a + 5, Space))
  }

  /** Type and name from `b`, after "const" (which ends at `from`) and the spaces that follow it. */
  function TypeAndNameAt(s: string, k: nat, from: nat, b: nat): (r: Option<Match>)
    requires k < from <= b <= |s|
    ensures r.Some? ==> r.value.start == k && k < r.value.end <= |s|
                        && 3 in r.value.groups && 4 in r.value.groups
  {
    var c := RunEnd(s, b, Word);
    var d := RunEnd(s, c, Space);
    var e := RunEnd(s, d, Word);
    if b == from || c == b || d == c || e == d then None
    else DeclarationTailAt(s, k, map[3 := s[b..c], 4 := s[d..e]], e)
  }

  /** The optional default value and the closing ';' from `e`, after the name. */
  function DeclarationTailAt(s: string, k: nat, groups: map<nat, string>, e: nat): (r: Option<Match>)
    requires k < e <= |s|
    ensures r.Some? ==> r.value.start == k && e < r.value.end <= |s| && groups.Keys <= r.value.groups.Keys
  {
    var f := RunEnd(s, e, Space);
    if f < |s| && s[f] == '=' then
      var v0 := RunEnd(s, f + 1, Space);
      var v1 := RunEnd(s, v0, ConstValue);
      var t := RunEnd(s, v1, Space);
      if v1 > v0 && t < |s| && s[t] == ';' then Some(Match(k, t + 1, groups[6 := s[v0..v1]])) else None
    else if f < |s| && s[f] == ';' then Some(Match(k, f + 1, groups))
    else None
  }

  /**
   * `(#include)\s*?((\s*?<((\w+(:))?[\w/._\-]+)\s*?>)|("\s*?([\w/._\-]+)\s*?"))` at `k`:
   * group 4 is the path between angle brackets, group 8 the path between quotes.
   */
  function IncludeAt(s: string, k: nat): (r: Option<Match>)
    requires k <= |s|
    ensures r.Some? ==> r.value.start == k && k < r.value.end <= |s|
                        && (4 in r.value.groups || 8 in r.value.groups)
  {
    if !MatchAt(s, "#include", k) then None
    else IncludeTargetAt(s, k, RunEnd(s, k + 8, Space))
  }

  /** The bracketed or quoted target from `a`, after "#include" and the spaces that follow it. */
  function IncludeTargetAt(s: string, k: nat, a: nat): (r: Option<Match>)
    requires k + 8 <= a <= |s|
    ensures r.Some? ==> r.value.start == k && k < r.value.end <= |s|
                        && (4 in r.value.groups || 8 in r.value.groups)
  {
    if a == |s| then None
    else if s[a] == '<' then BracketedTargetAt(s, k, a + 1)
    else if s[a] == '"' then QuotedTargetAt(s, k, a + 1)
    else None
  }

  /** `((\w+(:))?[\w/._\-]+)\s*?>` from `p0`, just after the '<'. */
  function BracketedTargetAt(s: string, k: nat, p0: nat): (r: Option<Match>)
    requires k < p0 <= |s|
    ensures r.Some? ==> r.value.start == k && p0 < r.value.end <= |s| && 4 in r.value.groups
  {
    var w := RunEnd(s, p0, Word);
    var q := if w > p0 && w < |s| && s[w] == ':' then w + 1 else p0;
    var p1 := RunEnd(s, q, IncludePath);
    var t := RunEnd(s, p1, Space);
    if p1 > q && t < |s| && s[t] == '>' then Some(Match(k, t + 1, map[4 := s[p0..p1]])) else None
  }

  /** `\s*?([\w/._\-]+)\s*?"` from `a1`, just after the opening quote. */
  function QuotedTargetAt(s: string, k: nat, a1: nat): (r: Option<Match>)
    requires k < a1 <= |s|
    ensures r.Some? ==> r.value.start == k && a1 < r.value.end <= |s| && 8 in r.value.groups
  {
    var p0 := RunEnd(s, a1, Space);
    var p1 := RunEnd(s, p0, IncludePath);
    var t := RunEnd(s, p1, Space);
    if p1 > p0 && t < |s| && s[t] == '"' then Some(Match(k, t + 1, map[8 := s[p0..p1]])) else None
  }

  /** `(\d+)\.(\d+)\.(\d+)` at `k`: major, minor and patch number. */
  function GlVersionAt(s: string, k: nat): (r: Option<Match>)
    requires k <= |s|
    ensures r.Some? ==> r.value.start == k && k < r.value.end <= |s|
                        && 1 in r.value.groups && 2 in r.value.groups && 3 in r.value.groups
  {
    var a := RunEnd(s, k, Digit);
    if a == k || a == |s| || s[a] != '.' then None
    else MinorPatchAt(s, k, a)
  }

  /** Minor and patch number after the major number, which ends with the dot at `a`. */
  function MinorPatchAt(s: string, k: nat, a: nat): (r: Option<Match>)
    requires k < a < |s|
    ensures r.Some? ==> r.value.start == k && k < r.value.end <= |s|
                        && 1 in r.value.groups && 2 in r.value.groups && 3 in r.value.groups
  {
    var b := RunEnd(s, a + 1, Digit);
    if b == a + 1 || b == |s| || s[b] != '.' then None
    else PatchAt(s, k, a, b)
  }

  /** The patch number after the minor number, which ends with the dot at `b`. */
  function PatchAt(s: string, k: nat, a: nat, b: nat): (r: Option<Match>)
    requires k < a < b < |s|
    ensures r.Some? ==> r.value.start == k && k < r.value.end <= |s|
                        && 1 in r.value.groups && 2 in r.value.groups && 3 in r.value.groups
  {
    var c := RunEnd(s, b + 1, Digit);
    if c == b + 1 then None
    else Some(Match(k, c, map[1 := s[k..a], 2 := s[a + 1..b], 3 := s[b + 1..c]]))
  }

  function MatchPatternAt(p: Pattern, s: string, k: nat): (r: Option<Match>)
    requires k <= |s|
    ensures r.Some? ==> r.value.start == k && k < r.value.end <= |s|
  {
    match p
    case SpecialConstPattern => SpecialConstAt(s, k)
    case IncludePattern => IncludeAt(s, k)
    case GlVersionPattern => GlVersionAt(s, k)
  }

  /** Matcher.find from `from`: the match at the leftmost position where there is one. */
  function Find(p: Pattern, s: string, from: nat): (r: Option<Match>)
    requires from <= |s|
    ensures r.Some? ==> from <= r.value.start < r.value.end <= |s|
    decreases |s| - from
  {
    match MatchPatternAt(p, s, from)
    case Some(m) => Some(m)
    case None => if from == |s| then None else Find(p, s, from + 1)
  }

  /** What Find gives is the match at its start, and no position before it (from `from` on) matches. */
  lemma {:induction false} FindIsLeftmost(p: Pattern, s: string, from: nat)
    requires from <= |s|
    ensures var r := Find(p, s, from);
            (r.Some? ==> MatchPatternAt(p, s, r.value.start) == r)
            && forall k :: from <= k <= |s| && (r.None? || k < r.value.start) ==> MatchPatternAt(p, s, k).None?
    decreases |s| - from
  {
    if MatchPatternAt(p, s, from).None? && from < |s| {
      FindIsLeftmost(p, s, from + 1);
    }
  }

  /** A match at `k` with none before it is what Find gives from the start. */
  lemma FindFirst(p: Pattern, s: string, k: nat)
    requires k <= |s| && MatchPatternAt(p, s, k).Some?
    requires forall j :: 0 <= j < k ==> MatchPatternAt(p, s, j).None?
    ensures Find(p, s, 0) == MatchPatternAt(p, s, k)
  {
    FindIsLeftmost(p, s, 0);
  }

  /** Where no position matches, Find finds nothing. */
  lemma FindNone(p: Pattern, s: string)
    requires forall k :: 0 <= k <= |s| ==> MatchPatternAt(p, s, k).None?
    ensures Find(p, s, 0).None?
  {
    FindIsLeftmost(p, s, 0);
  }

  /** Text made of the characters of one class. */
  predicate AllIn(cl: CharClass, t: string)
  {
    forall j :: 0 <= j < |t| ==> InClass(cl, t[j])
  }

  /** The canonical declaration "special const T N = d;". */
  function DeclarationWithDefault(typeName: string, name: string, default: string): string
  {
    "special const " + typeName + " " + name + " = " + default + ";"
  }

  /** The canonical declaration "special const T N;". */
  function DeclarationWithoutDefault(typeName: string, name: string): string
  {
    "special const " + typeName + " " + name + ";"
  }

  /** `t` sits in `s` at `i`. */
  predicate Seg(s: string, i: nat, t: string)
  {
    i + |t| <= |s| && s[i..i + |t|] == t
  }

  lemma SegOf(pre: string, t: string, post: string)
    ensures Seg(pre + t + post, |pre|, t)
  {
    var s := pre + t + post;
    assert s[|pre|..|pre| + |t|] == t;
  }

  lemma SegSplit(s: string, i: nat, a: string, b: string)
    requires Seg(s, i, a + b)
    ensures Seg(s, i, a) && Seg(s, i + |a|, b)
  {
    assert s[i..i + |a|] == s[i..i + |a + b|][..|a|];
    assert s[i + |a|..i + |a| + |b|] == s[i..i + |a + b|][|a|..];
  }

  lemma SegChar(s: string, i: nat, c: char)
    requires Seg(s, i, [c])
    ensures i < |s| && s[i] == c
  {
    assert s[i] == s[i..i + 1][0];
  }

  lemma SegFirst(s: string, i: nat, t: string)
    requires Seg(s, i, t) && t != []
    ensures i < |s| && s[i] == t[0]
  {
    assert s[i] == s[i..i + |t|][0];
  }

  /** Find from `from` gives the match at `from` when there is one. */
  lemma FindHere(p: Pattern, s: string, from: nat)
    requires from <= |s| && MatchPatternAt(p, s, from).Some?
    ensures Find(p, s, from) == MatchPatternAt(p, s, from)
  {
  }

  /** The keywords "special const " at `k`, as the recogniser tests them. */
  predicate KeywordsAt(s: string, k: nat)
  {
    MatchAt(s, "special", k) && k + 14 <= |s| && s[k + 7] == ' ' && MatchAt(s, "const", k + 8) && s[k + 13] == ' '
  }

  lemma KeywordsOf(s: string, k: nat)
    requires Seg(s, k, "special const ")
    ensures KeywordsAt(s, k)
  {
    assert s[k..k + 7] == s[k..k + 14][..7];
    assert s[k + 8..k + 13] == s[k..k + 14][8..13];
    assert s[k + 7] == s[k..k + 14][7];
    assert s[k + 13] == s[k..k + 14][13];
  }

  /** The spaces after "special" and after "const". */
  lemma KeywordRuns(s: string, k: nat)
    requires KeywordsAt(s, k) && k + 14 < |s| && !InClass(Space, s[k + 14])
    ensures RunEnd(s, k + 7, Space) == k + 8 && RunEnd(s, k + 13, Space) == k + 14
  {
    assert s[k + 8] == s[k + 8..k + 13][0];
    RunEndExact(s, k + 7, 1, Space);
    RunEndExact(s, k + 13, 1, Space);
  }

  /** A type and a name separated by one space, from `b`, followed by a non-word character. */
  lemma TypeAndNameRuns(s: string, b: nat, typeName: string, name: string)
    requires Seg(s, b, typeName) && b + |typeName| < |s| && s[b + |typeName|] == ' ' && Seg(s, b + |typeName| + 1, name)
    requires typeName != [] && AllIn(Word, typeName) && name != [] && AllIn(Word, name)
    requires b + |typeName| + 1 + |name| < |s| && !IsWordChar(s[b + |typeName| + 1 + |name|])
    ensures var c := b + |typeName|;
            RunEnd(s, b, Word) == c && RunEnd(s, c, Space) == c + 1 && RunEnd(s, c + 1, Word) == c + 1 + |name|
  {
    var c := b + |typeName|;
    SegFirst(s, c + 1, name);
    RunOver(s, b, typeName, Word);
    RunEndExact(s, c, 1, Space);
    RunOver(s, c + 1, name, Word);
  }

  /** " = value;" at `e`. */
  lemma ValueRuns(s: string, e: nat, default: string)
    requires e + 3 + |default| < |s| && s[e] == ' ' && s[e + 1] == '=' && s[e + 2] == ' '
    requires Seg(s, e + 3, default) && s[e + 3 + |default|] == ';'
    requires default != [] && AllIn(ConstValue, default)
    ensures var v1 := e + 3 + |default|;
            RunEnd(s, e, Space) == e + 1 && RunEnd(s, e + 2, Space) == e + 3
            && RunEnd(s, e + 3, ConstValue) == v1 && RunEnd(s, v1, Space) == v1
  {
    var v1 := e + 3 + |default|;
    SegFirst(s, e + 3, default);
    RunEndExact(s, e, 1, Space);
    RunEndExact(s, e + 2, 1, Space);
    RunOver(s, e + 3, default, ConstValue);
    RunEndExact(s, v1, 0, Space);
  }

  /** SpecialConstAt on a declaration with a default value, once its runs are known. */
  lemma DeclarationMatch(s: string, k: nat, c: nat, e: nat, v1: nat)
    requires KeywordsAt(s, k) && (k == 0 || !IsWordChar(s[k - 1]))
    requires k + 14 < c && c + 1 < e && e + 3 < v1 < |s|
    requires s[e + 1] == '=' && s[v1] == ';'
    requires RunEnd(s, k + 7, Space) == k + 8 && RunEnd(s, k + 13, Space) == k + 14
    requires RunEnd(s, k + 14, Word) == c && RunEnd(s, c, Space) == c + 1 && RunEnd(s, c + 1, Word) == e
    requires RunEnd(s, e, Space) == e + 1 && RunEnd(s, e + 2, Space) == e + 3
    requires RunEnd(s, e + 3, ConstValue) == v1 && RunEnd(s, v1, Space) == v1
    ensures SpecialConstAt(s, k)
            == Some(Match(k, v1 + 1, map[3 := s[k + 14..c], 4 := s[c + 1..e], 6 := s[e + 3..v1]]))
  {
  }

  /** SpecialConstAt on a declaration without a default value, once its runs are known. */
  lemma BareDeclarationMatch(s: string, k: nat, c: nat, e: nat)
    requires KeywordsAt(s, k) && (k == 0 || !IsWordChar(s[k - 1]))
    requires k + 14 < c && c + 1 < e < |s| && s[e] == ';'
    requires RunEnd(s, k + 7, Space) == k + 8 && RunEnd(s, k + 13, Space) == k + 14
    requires RunEnd(s, k + 14, Word) == c && RunEnd(s, c, Space) == c + 1 && RunEnd(s, c + 1, Word) == e
    requires RunEnd(s, e, Space) == e
    ensures SpecialConstAt(s, k) == Some(Match(k, e + 1, map[3 := s[k + 14..c], 4 := s[c + 1..e]]))
  {
  }

  /**
   * The pieces of a declaration with a default value at `k`: "special const ", the type, a
   * space, the name, " = ", the value and ';'.
   */
  predicate DeclarationPieces(s: string, k: nat, typeName: string, name: string, default: string)
  {
    var c := k + 14 + |typeName|;
    var e := c + 1 + |name|;
    KeywordsAt(s, k) && Seg(s, k + 14, typeName) && c < |s| && s[c] == ' ' && Seg(s, c + 1, name)
    && e + 3 + |default| < |s| && s[e] == ' ' && s[e + 1] == '=' && s[e + 2] == ' '
    && Seg(s, e + 3, default) && s[e + 3 + |default|] == ';'
  }

  /** The canonical declaration with a default value is made of these pieces. */
  lemma DeclarationLayout(pre: string, typeName: string, name: string, default: string, post: string)
    ensures DeclarationPieces(pre + DeclarationWithDefault(typeName, name, default) + post, |pre|, typeName, name, default)
  {
    var decl := DeclarationWithDefault(typeName, name, default);
    var s := pre + decl + post;
    var k := |pre|;
    var x1 := "special const " + typeName;
    var x2 := x1 + " ";
    var x3 := x2 + name;
    var x4 := x3 + " = ";
    var x5 := x4 + default;
    assert decl == x5 + ";";
    SegOf(pre, decl, post);
    SegSplit(s, k, x5, ";");
    SegSplit(s, k, x4, default);
    SegSplit(s, k, x3, " = ");
    SegSplit(s, k, x2, name);
    SegSplit(s, k, x1, " ");
    SegSplit(s, k, "special const ", typeName);
    KeywordsOf(s, k);
    var e := k + 15 + |typeName| + |name|;
    SegChar(s, k + 14 + |typeName|, ' ');
    SegChar(s, e + 3 + |default|, ';');
    EqualsAt(s, e);
  }

  lemma EqualsAt(s: string, e: nat)
    requires Seg(s, e, " = ")
    ensures e + 2 < |s| && s[e] == ' ' && s[e + 1] == '=' && s[e + 2] == ' '
  {
    assert s[e] == s[e..e + 3][0];
    assert s[e + 1] == s[e..e + 3][1];
    assert s[e + 2] == s[e..e + 3][2];
  }

  /**
   * A declaration with a default value is recognised where it starts, with type, name and
   * value as groups 3, 4 and 6.
   */
  lemma RecognisesDeclarationWithDefault(s: string, k: nat, typeName: string, name: string, default: string)
    requires DeclarationPieces(s, k, typeName, name, default)
    requires k == 0 || !IsWordChar(s[k - 1])
    requires typeName != [] && AllIn(Word, typeName)
    requires name != [] && AllIn(Word, name)
    requires default != [] && AllIn(ConstValue, default)
    ensures SpecialConstAt(s, k)
            == Some(Match(k, k + |typeName| + |name| + |default| + 19, map[3 := typeName, 4 := name, 6 := default]))
  {
    var c := k + 14 + |typeName|;
    var e := c + 1 + |name|;
    var v1 := e + 3 + |default|;
    SegFirst(s, k + 14, typeName);
    KeywordRuns(s, k);
    TypeAndNameRuns(s, k + 14, typeName, name);
    ValueRuns(s, e, default);
    DeclarationMatch(s, k, c, e, v1);
    assert s[k + 14..c] == typeName && s[c + 1..e] == name && s[e + 3..v1] == default;
  }

  /** The pieces of a declaration without a default value at `k`. */
  predicate BareDeclarationPieces(s: string, k: nat, typeName: string, name: string)
  {
    var c := k + 14 + |typeName|;
    KeywordsAt(s, k) && Seg(s, k + 14, typeName) && c < |s| && s[c] == ' ' && Seg(s, c + 1, name)
    && c + 1 + |name| < |s| && s[c + 1 + |name|] == ';'
  }

  /** The canonical declaration without a default value is made of these pieces. */
  lemma BareDeclarationLayout(pre: string, typeName: string, name: string, post: string)
    ensures BareDeclarationPieces(pre + DeclarationWithoutDefault(typeName, name) + post, |pre|, typeName, name)
  {
    var decl := DeclarationWithoutDefault(typeName, name);
    var s := pre + decl + post;
    var k := |pre|;
    var x1 := "special const " + typeName;
    var x2 := x1 + " ";
    var x3 := x2 + name;
    assert decl == x3 + ";";
    SegOf(pre, decl, post);
    SegSplit(s, k, x3, ";");
    SegSplit(s, k, x2, name);
    SegSplit(s, k, x1, " ");
    SegSplit(s, k, "special const ", typeName);
    KeywordsOf(s, k);
    SegChar(s, k + 14 + |typeName|, ' ');
    SegChar(s, k + 15 + |typeName| + |name|, ';');
  }

  /** A declaration without a default value is recognised where it starts, with type and name. */
  lemma RecognisesDeclarationWithoutDefault(s: string, k: nat, typeName: string, name: string)
    requires BareDeclarationPieces(s, k, typeName, name)
    requires k == 0 || !IsWordChar(s[k - 1])
    requires typeName != [] && AllIn(Word, typeName)
    requires name != [] && AllIn(Word, name)
    ensures SpecialConstAt(s, k) == Some(Match(k, k + |typeName| + |name| + 16, map[3 := typeName, 4 := name]))
  {
    var c := k + 14 + |typeName|;
    var e := c + 1 + |name|;
    SegFirst(s, k + 14, typeName);
    KeywordRuns(s, k);
    TypeAndNameRuns(s, k + 14, typeName, name);
    RunEndExact(s, e, 0, Space);
    BareDeclarationMatch(s, k, c, e);
  }

  /** "#include" and one space at `k`, as the recogniser tests them. */
  predicate DirectiveAt(s: string, k: nat)
  {
    MatchAt(s, "#include", k) && k + 9 < |s| && s[k + 8] == ' '
  }

  lemma DirectiveOf(s: string, k: nat)
    requires Seg(s, k, "#include ") && k + 9 < |s|
    ensures DirectiveAt(s, k)
  {
    assert s[k..k + 8] == s[k..k + 9][..8];
    assert s[k + 8] == s[k..k + 9][8];
  }

  /**
   * The pieces of a quoted include at `k`: "#include", a space, the quote, the path and the
   * closing quote.
   */
  predicate QuotedIncludePieces(s: string, k: nat, path: string)
  {
    DirectiveAt(s, k) && s[k + 9] == '"' && Seg(s, k + 10, path)
    && k + 10 + |path| < |s| && s[k + 10 + |path|] == '"'
  }

  /** The canonical quoted include is made of these pieces. */
  lemma QuotedIncludeLayout(pre: string, path: string, post: string)
    ensures QuotedIncludePieces(pre + ("#include \"" + path + "\"") + post, |pre|, path)
  {
    var directive := "#include \"" + path + "\"";
    var s := pre + directive + post;
    var k := |pre|;
    var x1 := "#include \"" + path;
    assert directive == x1 + "\"";
    SegOf(pre, directive, post);
    SegSplit(s, k, x1, "\"");
    SegSplit(s, k, "#include \"", path);
    assert "#include \"" == "#include " + "\"";
    SegSplit(s, k, "#include ", "\"");
    SegChar(s, k + 9, '"');
    SegChar(s, k + 10 + |path|, '"');
    DirectiveOf(s, k);
  }

  /** `#include "path"` is recognised where it starts, with the path as group 8. */
  lemma RecognisesQuotedInclude(s: string, k: nat, path: string)
    requires QuotedIncludePieces(s, k, path)
    requires path != [] && AllIn(IncludePath, path)
    ensures IncludeAt(s, k) == Some(Match(k, k + |path| + 11, map[8 := path]))
  {
    var p0 := k + 10;
    var p1 := p0 + |path|;
    SegFirst(s, p0, path);
    RunEndExact(s, k + 8, 1, Space);
    RunEndExact(s, p0, 0, Space);
    RunOver(s, p0, path, IncludePath);
    RunEndExact(s, p1, 0, Space);
    QuotedMatch(s, k, p1);
  }

  lemma QuotedMatch(s: string, k: nat, p1: nat)
    requires DirectiveAt(s, k) && s[k + 9] == '"' && k + 10 < p1 < |s| && s[p1] == '"'
    requires RunEnd(s, k + 8, Space) == k + 9 && RunEnd(s, k + 10, Space) == k + 10
    requires RunEnd(s, k + 10, IncludePath) == p1 && RunEnd(s, p1, Space) == p1
    ensures IncludeAt(s, k) == Some(Match(k, p1 + 1, map[8 := s[k + 10..p1]]))
  {
  }

  /**
   * The pieces of a bracketed include at `k`: "#include", a space, '<', the namespace, ':',
   * the path and '>'.
   */
  predicate BracketedIncludePieces(s: string, k: nat, namespace: string, path: string)
  {
    var w := k + 10 + |namespace|;
    DirectiveAt(s, k) && s[k + 9] == '<' && Seg(s, k + 10, namespace) && w < |s| && s[w] == ':'
    && Seg(s, w + 1, path) && w + 1 + |path| < |s| && s[w + 1 + |path|] == '>'
  }

  /** The canonical bracketed include is made of these pieces. */
  lemma BracketedIncludeLayout(pre: string, namespace: string, path: string, post: string)
    ensures BracketedIncludePieces(pre + ("#include <" + namespace + ":" + path + ">") + post, |pre|, namespace, path)
  {
    var directive := "#include <" + namespace + ":" + path + ">";
    var s := pre + directive + post;
    var k := |pre|;
    var x1 := "#include <" + namespace;
    var x2 := x1 + ":";
    var x3 := x2 + path;
    assert directive == x3 + ">";
    SegOf(pre, directive, post);
    SegSplit(s, k, x3, ">");
    SegSplit(s, k, x2, path);
    SegSplit(s, k, x1, ":");
    SegSplit(s, k, "#include <", namespace);
    assert "#include <" == "#include " + "<";
    SegSplit(s, k, "#include ", "<");
    SegChar(s, k + 9, '<');
    SegChar(s, k + 10 + |namespace|, ':');
    SegChar(s, k + 11 + |namespace| + |path|, '>');
    DirectiveOf(s, k);
  }

  /** `#include <ns:path>` is recognised where it starts, with "ns:path" as group 4. */
  lemma RecognisesBracketedInclude(s: string, k: nat, namespace: string, path: string)
    requires BracketedIncludePieces(s, k, namespace, path)
    requires namespace != [] && AllIn(Word, namespace)
    requires path != [] && AllIn(IncludePath, path)
    ensures IncludeAt(s, k) == Some(Match(k, k + |namespace| + |path| + 12, map[4 := namespace + ":" + path]))
  {
    var p0 := k + 10;
    var w := p0 + |namespace|;
    var p1 := w + 1 + |path|;
    RunEndExact(s, k + 8, 1, Space);
    RunOver(s, p0, namespace, Word);
    RunOver(s, w + 1, path, IncludePath);
    RunEndExact(s, p1, 0, Space);
    assert s[p0..p1] == s[p0..w] + [s[w]] + s[w + 1..p1];
    assert s[p0..p1] == namespace + ":" + path;
    BracketedMatch(s, k, w, p1);
  }

  lemma BracketedMatch(s: string, k: nat, w: nat, p1: nat)
    requires DirectiveAt(s, k) && s[k + 9] == '<' && k + 10 < w < w + 1 < p1 < |s| && s[w] == ':' && s[p1] == '>'
    requires RunEnd(s, k + 8, Space) == k + 9 && RunEnd(s, k + 10, Word) == w
    requires RunEnd(s, w + 1, IncludePath) == p1 && RunEnd(s, p1, Space) == p1
    ensures IncludeAt(s, k) == Some(Match(k, p1 + 1, map[4 := s[k + 10..p1]]))
  {
  }

  /** Text holding no '#' holds no include directive. */
  lemma NoHashNoInclude(s: string)
    requires '#' !in s
    ensures Find(IncludePattern, s, 0).None?
  {
    forall k | 0 <= k <= |s|
      ensures MatchPatternAt(IncludePattern, s, k).None?
    {
      if k + 8 <= |s| {
        assert s[k..k + 8][0] == s[k];
        assert s[k] in s;
      }
    }
    FindNone(IncludePattern, s);
  }

  /** The version number is read from the leftmost "major.minor.patch". */
  lemma RecognisesVersion(major: string, minor: string, patch: string, post: string)
    requires major != [] && AllIn(Digit, major)
    requires minor != [] && AllIn(Digit, minor)
    requires patch != [] && AllIn(Digit, patch)
    requires post == [] || !InClass(Digit, post[0])
    ensures Find(GlVersionPattern, major + "." + minor + "." + patch + post, 0)
            == Some(Match(0, |major| + |minor| + |patch| + 2, map[1 := major, 2 := minor, 3 := patch]))
  {
    var s := major + "." + minor + "." + patch + post;
    VersionPieces(s, major, minor, patch, post);
    VersionFromPieces(s, major, minor, patch);
    FindHere(GlVersionPattern, s, 0);
  }

  /** Where the pieces of "major.minor.patch" followed by `post` sit. */
  lemma VersionPieces(s: string, major: string, minor: string, patch: string, post: string)
    requires s == major + "." + minor + "." + patch + post
    requires post == [] || !InClass(Digit, post[0])
    ensures var a, b, c := |major|, |major| + 1 + |minor|, |major| + |minor| + |patch| + 2;
            Seg(s, 0, major) && Seg(s, a, ".") && Seg(s, a + 1, minor) && Seg(s, b, ".") && Seg(s, b + 1, patch)
            && (c == |s| || !InClass(Digit, s[c]))
  {
    var x1 := major + ".";
    var x2 := x1 + minor;
    var x3 := x2 + ".";
    var x := x3 + patch;
    var c := |x|;
    assert c == |s| || !InClass(Digit, s[c]) by {
      if post != [] {
        assert s[c] == post[0];
      }
    }
    assert s == "" + x + post;
    SegOf("", x, post);
    SegSplit(s, 0, x3, patch);
    SegSplit(s, 0, x2, ".");
    SegSplit(s, 0, x1, minor);
    SegSplit(s, 0, major, ".");
  }

  lemma VersionFromPieces(s: string, major: string, minor: string, patch: string)
    requires major != [] && AllIn(Digit, major)
    requires minor != [] && AllIn(Digit, minor)
    requires patch != [] && AllIn(Digit, patch)
    requires var a, b, c := |major|, |major| + 1 + |minor|, |major| + |minor| + |patch| + 2;
             Seg(s, 0, major) && Seg(s, a, ".") && Seg(s, a + 1, minor) && Seg(s, b, ".") && Seg(s, b + 1, patch)
             && (c == |s| || !InClass(Digit, s[c]))
    ensures MatchPatternAt(GlVersionPattern, s, 0)
            == Some(Match(0, |major| + |minor| + |patch| + 2, map[1 := major, 2 := minor, 3 := patch]))
  {
    var a := |major|;
    var b := a + 1 + |minor|;
    SegChar(s, a, '.');
    SegChar(s, b, '.');
    MajorOver(s, major);
    MinorOver(s, 0, a, minor);
    PatchOver(s, 0, a, b, patch);
    assert s[0..a] == major && s[a + 1..b] == minor;
  }

  lemma MajorOver(s: string, major: string)
    requires Seg(s, 0, major) && major != [] && AllIn(Digit, major)
    requires |major| < |s| && s[|major|] == '.'
    ensures GlVersionAt(s, 0) == MinorPatchAt(s, 0, |major|)
  {
    RunOver(s, 0, major, Digit);
  }

  lemma MinorOver(s: string, k: nat, a: nat, minor: string)
    requires k < a && Seg(s, a + 1, minor) && minor != [] && AllIn(Digit, minor)
    requires a + 1 + |minor| < |s| && s[a + 1 + |minor|] == '.'
    ensures MinorPatchAt(s, k, a) == PatchAt(s, k, a, a + 1 + |minor|)
  {
    RunOver(s, a + 1, minor, Digit);
  }

  lemma PatchOver(s: string, k: nat, a: nat, b: nat, patch: string)
    requires k < a < b && Seg(s, b + 1, patch) && patch != [] && AllIn(Digit, patch)
    requires b + 1 + |patch| == |s| || !InClass(Digit, s[b + 1 + |patch|])
    ensures PatchAt(s, k, a, b) == Some(Match(k, b + 1 + |patch|, map[1 := s[k..a], 2 := s[a + 1..b], 3 := patch]))
  {
    RunOver(s, b + 1, patch, Digit);
  }
}
