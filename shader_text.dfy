/**
 * The text-level helpers of the shader pre-processor: resolving a relative include path,
 * taking the parent of a resource path, rendering a string as a GLSL `uint[]` initialiser,
 * and stripping comments and blank lines from shader source.
 */
module ShaderText {
  import opened JavaLang
  import opened Wrappers

  // ---------------------------------------------------------------------------------------
  // resolveRelativePath
  // ---------------------------------------------------------------------------------------

  /**
   * The stack walk over the path segments: ".." pops the top segment (a pop on an empty
   * stack throws EmptyStackException), every other segment is pushed.
   */
  function Resolve(stack: seq<string>, parts: seq<string>): Result<seq<string>, string>
    decreases |parts|
  {
    if parts == [] then Ok(stack)
    else if parts[0] == ".." then
      if stack == [] then Err("EmptyStackException") else Resolve(stack[..|stack| - 1], parts[1..])
    else Resolve(stack + [parts[0]], parts[1..])
  }

  /** resolveRelativePath: split at '/', walk the segments, join what is left with '/'. */
  function ResolvePath(path: string): Result<string, string>
  {
    match Resolve([], Split(path, '/'))
    case Ok(segments) => Ok(Join(segments, '/'))
    case Err(e) => Err(e)
  }

  method ResolveRelativePath(path: string) returns (r: Result<string, string>)
    ensures r == ResolvePath(path)
  {
    var parts := Split(path, '/');
    var stack: seq<string> := [];
    var i := 0;
    while i < |parts|
      invariant 0 <= i <= |parts|
      invariant Resolve(stack, parts[i..]) == Resolve([], parts)
    {
      assert parts[i..][1..] == parts[i + 1..];
      if parts[i] == ".." {
        if stack == [] {
          return Err("EmptyStackException");
        }
        stack := stack[..|stack| - 1];
      } else {
        stack := stack + [parts[i]];
      }
      i := i + 1;
    }
    return Ok(Join(stack, '/'));
  }

  /** Ordinary segments count +1 and ".." counts -1. */
  function Balance(parts: seq<string>): int
  {
    if parts == [] then 0 else (if parts[0] == ".." then -1 else 1) + Balance(parts[1..])
  }

  /** The walk over `a + b` is the walk over `a` continued over `b`. */
  lemma {:induction false} ResolveAppend(stack: seq<string>, a: seq<string>, b: seq<string>)
    ensures Resolve(stack, a + b) == match Resolve(stack, a)
                                    case Ok(t) => Resolve(t, b)
                                    case Err(e) => Err(e)
    decreases |a|
  {
    if a == [] {
      assert a + b == b;
    } else {
      assert (a + b)[0] == a[0];
      assert (a + b)[1..] == a[1..] + b;
      if a[0] == ".." {
        if stack != [] {
          ResolveAppend(stack[..|stack| - 1], a[1..], b);
        }
      } else {
        ResolveAppend(stack + [a[0]], a[1..], b);
      }
    }
  }

  /** Segments other than ".." are kept, in order. */
  lemma {:induction false} ResolveKeepsPlainSegments(stack: seq<string>, parts: seq<string>)
    requires ".." !in parts
    ensures Resolve(stack, parts) == Ok(stack + parts)
    decreases |parts|
  {
    if parts == [] {
      assert stack + parts == stack;
    } else {
      assert parts[0] in parts;
      assert forall p :: p in parts[1..] ==> p in parts;
      assert Resolve(stack, parts) == Resolve(stack + [parts[0]], parts[1..]);
      ResolveKeepsPlainSegments(stack + [parts[0]], parts[1..]);
      assert stack + [parts[0]] + parts[1..] == stack + parts;
    }
  }

  /** A ".." cancels the segment just before it. */
  lemma ResolveCancelsParent(stack: seq<string>, a: seq<string>, x: string, b: seq<string>)
    requires x != ".."
    ensures Resolve(stack, a + [x, ".."] + b) == Resolve(stack, a + b)
  {
    ResolveAppend(stack, a, [x, ".."] + b);
    ResolveAppend(stack, a, b);
    assert a + [x, ".."] + b == a + ([x, ".."] + b);
    match Resolve(stack, a)
    case Ok(t) =>
      assert ([x, ".."] + b)[1..][1..] == b;
      assert (t + [x])[..|t + [x]| - 1] == t;
    case Err(_) =>
  }

  /** The result never contains "..", when the stack did not. */
  lemma {:induction false} ResolveRemovesDotDot(stack: seq<string>, parts: seq<string>)
    requires ".." !in stack
    ensures Resolve(stack, parts).Ok? ==> ".." !in Resolve(stack, parts).value
    decreases |parts|
  {
    if parts != [] {
      if parts[0] == ".." {
        if stack != [] {
          assert forall p :: p in stack[..|stack| - 1] ==> p in stack;
          ResolveRemovesDotDot(stack[..|stack| - 1], parts[1..]);
        }
      } else {
        ResolveRemovesDotDot(stack + [parts[0]], parts[1..]);
      }
    }
  }

  /**
   * The walk fails exactly when some prefix of the segments holds more ".." than the stack
   * and the ordinary segments before them can absorb; otherwise the stack ends with the
   * balance of the segments added to it.
   */
  lemma {:induction false} ResolveFailsOnUnderflow(stack: seq<string>, parts: seq<string>)
    ensures Resolve(stack, parts).Err? <==>
            exists k :: 0 < k <= |parts| && |stack| + Balance(parts[..k]) < 0
    ensures Resolve(stack, parts).Ok? ==> |Resolve(stack, parts).value| == |stack| + Balance(parts)
    decreases |parts|
  {
    if parts == [] {
    } else if parts[0] == ".." && stack == [] {
      assert parts[..1] == [".."];
      assert Balance(parts[..1]) == -1;
    } else {
      var next := if parts[0] == ".." then stack[..|stack| - 1] else stack + [parts[0]];
      var step := if parts[0] == ".." then -1 else 1;
      assert |next| == |stack| + step;
      assert Resolve(stack, parts) == Resolve(next, parts[1..]);
      ResolveFailsOnUnderflow(next, parts[1..]);
      forall k | 0 < k <= |parts|
        ensures |stack| + Balance(parts[..k]) == |next| + Balance(parts[1..][..k - 1])
      {
        assert parts[..k][1..] == parts[1..][..k - 1];
      }
      if Resolve(stack, parts).Err? {
        var k' :| 0 < k' <= |parts| - 1 && |next| + Balance(parts[1..][..k']) < 0;
        assert |stack| + Balance(parts[..k' + 1]) < 0;
      } else {
        forall k | 0 < k <= |parts|
          ensures |stack| + Balance(parts[..k]) >= 0
        {
          if k > 1 {
            assert |next| + Balance(parts[1..][..k - 1]) >= 0;
          } else {
            assert parts[1..][..0] == [];
          }
        }
      }
    }
  }

  /** A path of two plain segments resolves to itself. */
  lemma ResolvePlainPath(parent: string, name: string)
    requires parent != [] && '/' !in parent && parent != ".."
    requires name != [] && '/' !in name && name != ".."
    ensures ResolvePath(parent + "/" + name) == Ok(parent + "/" + name)
  {
    var path := parent + "/" + name;
    assert path == parent + ['/'] + name;
    FullSplitConcat(parent, name, '/');
    FullSplitNoSep(name, '/');
    assert FullSplit(path, '/') == [parent, name];
    assert path[|parent|] == '/';
    assert DropTrailingEmpty([parent, name]) == [parent, name];
    assert Split(path, '/') == [parent, name];
    assert ".." !in [parent, name];
    ResolveKeepsPlainSegments([], [parent, name]);
    assert [] + [parent, name] == [parent, name];
    assert Resolve([], Split(path, '/')) == Ok([parent, name]);
    assert [parent, name][..1] == [parent];
    assert Join([parent, name], '/') == parent + ['/'] + name;
  }

  // ---------------------------------------------------------------------------------------
  // getParentPath
  // ---------------------------------------------------------------------------------------

  /**
   * getParentPath: the path up to its last '/'. Without a '/', lastIndexOf gives -1 and
   * substring(0, -1) throws StringIndexOutOfBoundsException.
   */
  function GetParentPath(path: string): (r: Result<string, string>)
    ensures r.Ok? <==> '/' in path
    ensures r.Ok? ==> |r.value| < |path| && path[..|r.value|] == r.value
                      && path[|r.value|] == '/' && '/' !in path[|r.value| + 1..]
  {
    var k := LastIndexOf(path, '/');
    if k == -1 then Err("StringIndexOutOfBoundsException") else Ok(path[..k])
  }

  /** The parent of "parent/name" is "parent". */
  lemma ParentOfChild(parent: string, name: string)
    requires '/' !in name
    ensures GetParentPath(parent + "/" + name) == Ok(parent)
  {
    var path := parent + "/" + name;
    assert path[|parent|] == '/';
    assert '/' in path;
    var r := GetParentPath(path).value;
    assert path[..|parent|] == parent;
  }

  // ---------------------------------------------------------------------------------------
  // generateStringData
  // ---------------------------------------------------------------------------------------

  /** "0x" followed by Integer.toHexString of the character. */
  function HexLiteral(c: char): string
  {
    "0x" + ToHexString(c as nat)
  }

  function HexLiterals(s: string): (r: seq<string>)
    ensures |r| == |s|
  {
    seq(|s|, i requires 0 <= i < |s| => HexLiteral(s[i]))
  }

  /** The initialiser generateStringData promises: "uint[]{", the literals separated by ',', "}". */
  function StringData(s: string): string
  {
    "uint[]{" + Join(HexLiterals(s), ',') + "}"
  }

  method GenerateStringData(sequence: string) returns (r: string)
    ensures r == StringData(sequence)
  {
    ghost var lits := HexLiterals(sequence);
    r := "uint[]{";
    var j := 0;
    while j < |sequence|
      invariant 0 <= j <= |sequence|
      invariant r == "uint[]{" + Join(lits[..j], ',') + (if 0 < j < |sequence| then "," else "")
    {
      DataStep(lits, j, sequence[j]);
      r := r + "0x" + ToHexString(sequence[j] as nat);
      if j < |sequence| - 1 {
        r := r + ",";
      }
      j := j + 1;
    }
    assert lits[..|sequence|] == lits;
    r := r + "}";
  }

  /** The initialiser after the literal for `c`, the j-th character. */
  lemma DataStep(lits: seq<string>, j: nat, c: char)
    requires j < |lits| && lits[j] == HexLiteral(c)
    ensures "uint[]{" + Join(lits[..j], ',') + (if 0 < j then "," else "") + "0x" + ToHexString(c as nat)
            == "uint[]{" + Join(lits[..j + 1], ',')
  {
    assert lits[..j + 1][..j] == lits[..j];
  }

  lemma {:induction false} HexDigitsHaveNoComma(n: nat)
    ensures ',' !in ToHexString(n)
  {
    if n >= 16 {
      HexDigitsHaveNoComma(n / 16);
    }
  }

  /** Reading an initialiser back: split the braces' contents at ',' and parse each literal. */
  function DecodeStringData(data: string): seq<nat>
  {
    if |data| < 8 then []
    else
      var inner := data[7..|data| - 1];
      if inner == [] then []
      else
        var items := FullSplit(inner, ',');
        seq(|items|, i requires 0 <= i < |items| => if |items[i]| >= 2 then ParseHex(items[i][2..]) else 0)
  }

  /** The initialiser lists exactly the character codes of the input, in order. */
  lemma StringDataRoundTrip(s: string)
    ensures DecodeStringData(StringData(s)) == seq(|s|, i requires 0 <= i < |s| => s[i] as nat)
  {
    var lits := HexLiterals(s);
    var data := StringData(s);
    assert data[7..|data| - 1] == Join(lits, ',');
    if s != [] {
      forall i | 0 <= i < |lits|
        ensures ',' !in lits[i]
      {
        HexDigitsHaveNoComma(s[i] as nat);
      }
      FullSplitJoin(lits, ',');
      assert Join(lits, ',') != [] by {
        JoinNonEmpty(lits, ',');
      }
      forall i | 0 <= i < |s|
        ensures ParseHex(lits[i][2..]) == s[i] as nat
      {
        assert lits[i][2..] == ToHexString(s[i] as nat);
        ParseToHexString(s[i] as nat);
      }
    }
  }

  lemma {:induction false} JoinNonEmpty(parts: seq<string>, sep: char)
    requires |parts| >= 1 && parts[0] != []
    ensures Join(parts, sep) != []
    decreases |parts|
  {
    if |parts| > 1 {
      JoinNonEmpty(parts[..|parts| - 1], sep);
    }
  }

  // ---------------------------------------------------------------------------------------
  // stripCommentsAndWhitespace, first pass: comments
  // ---------------------------------------------------------------------------------------

  /**
   * Comment removal as the pre-processor means it: a block comment runs from an opening
   * slash-star to the next star-slash and disappears; a line comment runs from "//" to the end
   * of the line and leaves the newline behind. Code text outside comments is kept.
   */
  function CodeText(s: string): string
    decreases |s|
  {
    if s == [] then ""
    else if |s| >= 2 && s[0] == '/' && s[1] == '*' then BlockText(s[2..])
    else if |s| >= 2 && s[0] == '/' && s[1] == '/' then LineText(s[2..])
    else [s[0]] + CodeText(s[1..])
  }

  /** Inside a block comment. */
  function BlockText(s: string): string
    decreases |s|
  {
    if s == [] then ""
    else if |s| >= 2 && s[0] == '*' && s[1] == '/' then CodeText(s[2..])
    else BlockText(s[1..])
  }

  /** Inside a line comment. */
  function LineText(s: string): string
    decreases |s|
  {
    if s == [] then ""
    else if s[0] == '\n' then "\n" + CodeText(s[1..])
    else LineText(s[1..])
  }

  /** The scanner's three flags. */
  datatype Scan = Scan(isBlockComment: bool, isLineComment: bool, skipNext: bool)

  /**
   * The scanner loop exactly as the source writes it, one character per step. On an opening
   * slash-star it enters the block state without skipping the '*', so that '*' can pair with a following
   * '/' and end the comment at once.
   */
  function ScanAsWritten(st: Scan, s: string): string
    decreases |s|
  {
    if s == [] then ""
    else if st.skipNext then ScanAsWritten(st.(skipNext := false), s[1..])
    else
      var hasNext := |s| >= 2;
      if st.isBlockComment then
        if s[0] == '*' && hasNext && s[1] == '/' then ScanAsWritten(Scan(false, false, true), s[1..])
        else ScanAsWritten(st, s[1..])
      else if st.isLineComment then
        if s[0] == '\n' then "\n" + ScanAsWritten(Scan(false, false, false), s[1..])
        else ScanAsWritten(st, s[1..])
      else if s[0] == '/' && hasNext && s[1] == '*' then ScanAsWritten(Scan(true, false, false), s[1..])
      else if s[0] == '/' && hasNext && s[1] == '/' then ScanAsWritten(Scan(false, true, false), s[1..])
      else [s[0]] + ScanAsWritten(st, s[1..])
  }

  /**
   * As written, slash-star-slash both opens and closes a block comment: the four characters
   * slash, star, slash, 'a' leave "a" behind, where the comment should swallow them all.
   */
  lemma OpenerReusedAsCloser()
    ensures ScanAsWritten(Scan(false, false, false), "/*/a") == "a"
    ensures CodeText("/*/a") == ""
  {
    var s := "/*/a";
    assert s[1..] == "*/a" && s[1..][1..] == "/a" && s[1..][1..][1..] == "a";
    assert ScanAsWritten(Scan(false, false, false), "a") == "a" by {
      assert "a"[1..] == "";
    }
    assert ScanAsWritten(Scan(false, false, true), "/a") == "a";
    assert ScanAsWritten(Scan(true, false, false), "*/a") == "a";
    assert s[2..] == "/a";
    assert BlockText("/a") == BlockText("a") == BlockText("") == "" by {
      assert "/a"[1..] == "a" && "a"[1..] == "";
    }
  }

  /** The text holds no slash-star-slash, the one place where the two scanners part ways. */
  predicate NoOpenerCloser(s: string)
    decreases |s|
  {
    |s| < 3 || (!(s[0] == '/' && s[1] == '*' && s[2] == '/') && NoOpenerCloser(s[1..]))
  }

  /**
   * Away from slash-star-slash, the scanner as written removes exactly the comments: from the
   * code, block or line state it leaves what CodeText, BlockText or LineText leave.
   */
  lemma {:induction false} ScanAsWrittenAgrees(st: Scan, s: string)
    requires !st.skipNext && !(st.isBlockComment && st.isLineComment)
    requires NoOpenerCloser(s)
    ensures ScanAsWritten(st, s) == Resume(st, s)
    decreases |s|
  {
    if s != [] {
      var hasNext := |s| >= 2;
      if |s| >= 3 {
        assert NoOpenerCloser(s[1..]);
      }
      if st.isBlockComment {
        if s[0] == '*' && hasNext && s[1] == '/' {
          assert s[1..][1..] == s[2..];
          NoOpenerCloserSuffix(s, 2);
          ScanAsWrittenAgrees(Scan(false, false, false), s[2..]);
        } else {
          NoOpenerCloserSuffix(s, 1);
          ScanAsWrittenAgrees(st, s[1..]);
        }
      } else if st.isLineComment {
        NoOpenerCloserSuffix(s, 1);
        if s[0] == '\n' {
          ScanAsWrittenAgrees(Scan(false, false, false), s[1..]);
        } else {
          ScanAsWrittenAgrees(st, s[1..]);
        }
      } else if s[0] == '/' && hasNext && s[1] == '*' {
        // The '*' of the opener is not followed by '/', so it leaves the block state as it is.
        NoOpenerCloserSuffix(s, 1);
        ScanAsWrittenAgrees(Scan(true, false, false), s[1..]);
        assert s[1..][1..] == s[2..];
      } else if s[0] == '/' && hasNext && s[1] == '/' {
        NoOpenerCloserSuffix(s, 1);
        ScanAsWrittenAgrees(Scan(false, true, false), s[1..]);
        assert s[1..][1..] == s[2..];
      } else {
        NoOpenerCloserSuffix(s, 1);
        ScanAsWrittenAgrees(st, s[1..]);
      }
    }
  }

  lemma {:induction false} NoOpenerCloserSuffix(s: string, k: nat)
    requires k <= |s| && NoOpenerCloser(s)
    ensures NoOpenerCloser(s[k..])
    decreases k
  {
    if k > 0 && |s| >= 3 {
      NoOpenerCloserSuffix(s[1..], k - 1);
      assert s[1..][k - 1..] == s[k..];
    }
  }

  /** On text without slash-star-slash, the scanner as written and StripComments agree. */
  lemma ScanAsWrittenIsCodeText(s: string)
    requires NoOpenerCloser(s)
    ensures ScanAsWritten(Scan(false, false, false), s) == CodeText(s)
  {
    ScanAsWrittenAgrees(Scan(false, false, false), s);
  }

  /** What remains of the text once the scanner, in state `st`, has reached `rest`. */
  function Resume(st: Scan, rest: string): string
  {
    if st.skipNext then
      if rest == [] then "" else if st.isBlockComment then BlockText(rest[1..]) else CodeText(rest[1..])
    else if st.isBlockComment then BlockText(rest)
    else if st.isLineComment then LineText(rest)
    else CodeText(rest)
  }

  /** One step of the scanner of StripComments: the state after the first character of `rest`. */
  function Next(st: Scan, rest: string): Scan
    requires rest != []
  {
    var hasNext := |rest| >= 2;
    if st.skipNext then st.(skipNext := false)
    else if st.isBlockComment then
      if rest[0] == '*' && hasNext && rest[1] == '/' then Scan(false, false, true) else st
    else if st.isLineComment then
      if rest[0] == '\n' then Scan(false, false, false) else st
    else if rest[0] == '/' && hasNext && rest[1] == '*' then Scan(true, false, true)
    else if rest[0] == '/' && hasNext && rest[1] == '/' then Scan(false, true, false)
    else st
  }

  /** What that step appends to the output. */
  function Emitted(st: Scan, rest: string): string
    requires rest != []
  {
    if st.skipNext || st.isBlockComment then ""
    else if st.isLineComment then (if rest[0] == '\n' then "\n" else "")
    else if |rest| >= 2 && rest[0] == '/' && (rest[1] == '*' || rest[1] == '/') then ""
    else [rest[0]]
  }

  lemma ResumeStep(st: Scan, rest: string)
    requires rest != []
    requires !(st.isLineComment && (st.isBlockComment || st.skipNext))
    ensures !(Next(st, rest).isLineComment && (Next(st, rest).isBlockComment || Next(st, rest).skipNext))
    ensures Resume(st, rest) == Emitted(st, rest) + Resume(Next(st, rest), rest[1..])
  {
    if |rest| >= 2 {
      assert rest[1..][1..] == rest[2..];
    }
  }

  /** One step of StripComments keeps its loop invariant. */
  lemma StripStep(source: string, i: nat, st: Scan, out: string)
    requires i < |source| && !(st.isLineComment && (st.isBlockComment || st.skipNext))
    requires out + Resume(st, source[i..]) == CodeText(source)
    ensures !(Next(st, source[i..]).isLineComment && (Next(st, source[i..]).isBlockComment || Next(st, source[i..]).skipNext))
    ensures out + Emitted(st, source[i..]) + Resume(Next(st, source[i..]), source[i + 1..]) == CodeText(source)
  {
    var rest := source[i..];
    assert rest[1..] == source[i + 1..];
    ResumeStep(st, rest);
    var e, r := Emitted(st, rest), Resume(Next(st, rest), rest[1..]);
    assert out + (e + r) == out + e + r;
  }

  /**
   * The comment scanner, with the opening '*' of a block comment skipped like the closing '/'
   * (the as-written scanner is ScanAsWritten).
   */
  method StripComments(source: string) returns (out: string)
    ensures out == CodeText(source)
  {
    out := "";
    var isBlockComment, isLineComment, skipNext := false, false, false;
    var i := 0;
    while i < |source|
      invariant 0 <= i <= |source|
      invariant !(isLineComment && (isBlockComment || skipNext))
      invariant out + Resume(Scan(isBlockComment, isLineComment, skipNext), source[i..]) == CodeText(source)
    {
      ghost var rest := source[i..];
      ghost var st := Scan(isBlockComment, isLineComment, skipNext);
      ghost var out0 := out;
      var c := source[i];
      if skipNext {
        skipNext := false;
      } else {
        var hasNext := i < |source| - 1;
        var next := if hasNext then source[i + 1] else ' ';
        if isBlockComment {
          if c == '*' && hasNext && next == '/' {
            isBlockComment := false;
            skipNext := true;
          }
        } else if isLineComment {
          if c == '\n' {
            isLineComment := false;
            out := out + [c];
          }
        } else if c == '/' && hasNext && next == '*' {
          isBlockComment := true;
          skipNext := true;
        } else if c == '/' && hasNext && next == '/' {
          isLineComment := true;
        } else {
          out := out + [c];
        }
      }
      assert Scan(isBlockComment, isLineComment, skipNext) == Next(st, rest);
      assert out == out0 + Emitted(st, rest);
      StripStep(source, i, st, out0);
      i := i + 1;
    }
  }

  /** Text without a '/' has no comment and is kept as it is. */
  lemma {:induction false} NoSlashNoComment(s: string)
    requires '/' !in s
    ensures CodeText(s) == s
  {
    if s != [] {
      NoSlashNoComment(s[1..]);
      assert [s[0]] + s[1..] == s;
    }
  }

  /** Code text before a comment is kept unchanged. */
  lemma {:induction false} CodePrefixKept(a: string, b: string)
    requires '/' !in a
    requires b != [] ==> b[0] == '/'
    ensures CodeText(a + b) == a + CodeText(b)
  {
    if a == [] {
      assert a + b == b;
    } else {
      assert a[0] in a;
      assert forall c :: c in a[1..] ==> c in a;
      assert (a + b)[0] == a[0];
      assert (a + b)[1..] == a[1..] + b;
      assert CodeText(a + b) == [a[0]] + CodeText(a[1..] + b);
      CodePrefixKept(a[1..], b);
      assert [a[0]] + a[1..] == a;
    }
  }

  lemma {:induction false} BlockBodySkipped(c: string, b: string)
    requires forall k :: 0 <= k < |c| - 1 ==> !(c[k] == '*' && c[k + 1] == '/')
    requires c != [] ==> c[|c| - 1] != '*'
    ensures BlockText(c + "*/" + b) == CodeText(b)
  {
    if c == [] {
      assert ("*/" + b)[2..] == b;
    } else {
      assert (c + "*/" + b)[1..] == c[1..] + "*/" + b;
      BlockBodySkipped(c[1..], b);
    }
  }

  /** A block comment disappears together with its delimiters. */
  lemma BlockCommentRemoved(a: string, c: string, b: string)
    requires '/' !in a
    requires forall k :: 0 <= k < |c| - 1 ==> !(c[k] == '*' && c[k + 1] == '/')
    requires c != [] ==> c[|c| - 1] != '*'
    ensures CodeText(a + "/*" + c + "*/" + b) == a + CodeText(b)
  {
    var rest := "/*" + c + "*/" + b;
    assert a + "/*" + c + "*/" + b == a + rest;
    CodePrefixKept(a, rest);
    assert rest[2..] == c + "*/" + b;
    BlockBodySkipped(c, b);
  }

  lemma {:induction false} LineBodySkipped(c: string, b: string)
    requires '\n' !in c
    ensures LineText(c + "\n" + b) == "\n" + CodeText(b)
  {
    if c == [] {
      assert ("\n" + b)[1..] == b;
    } else {
      assert (c + "\n" + b)[1..] == c[1..] + "\n" + b;
      LineBodySkipped(c[1..], b);
    }
  }

  /** A line comment disappears up to, and not including, the newline that ends it. */
  lemma LineCommentRemoved(a: string, c: string, b: string)
    requires '/' !in a && '\n' !in c
    ensures CodeText(a + "//" + c + "\n" + b) == a + "\n" + CodeText(b)
  {
    var rest := "//" + c + "\n" + b;
    assert a + "//" + c + "\n" + b == a + rest;
    CodePrefixKept(a, rest);
    assert rest[2..] == c + "\n" + b;
    LineBodySkipped(c, b);
  }

  // ---------------------------------------------------------------------------------------
  // stripCommentsAndWhitespace, second pass: blank lines
  // ---------------------------------------------------------------------------------------

  /** The lines that are not blank, in order. */
  function NonBlankLines(lines: seq<string>): (r: seq<string>)
    ensures forall l :: l in r <==> l in lines && !IsBlank(l)
    ensures forall i :: 0 <= i < |r| ==> !IsBlank(r[i])
  {
    if lines == [] then []
    else if IsBlank(lines[0]) then NonBlankLines(lines[1..])
    else
      var rest := NonBlankLines(lines[1..]);
      assert forall l :: l in lines <==> l == lines[0] || l in lines[1..];
      [lines[0]] + rest
  }

  /** Each line followed by "\n". */
  function Terminated(lines: seq<string>): string
  {
    if lines == [] then "" else lines[0] + "\n" + Terminated(lines[1..])
  }

  method DropBlankLines(text: string) returns (out: string)
    ensures out == Terminated(NonBlankLines(Split(text, '\n')))
  {
    var lines := Split(text, '\n');
    out := "";
    var i := |lines|;
    var tail := "";
    // Built back to front so that each step prepends one line to the finished suffix.
    while i > 0
      invariant 0 <= i <= |lines|
      invariant tail == Terminated(NonBlankLines(lines[i..]))
    {
      i := i - 1;
      assert lines[i..][1..] == lines[i + 1..];
      if !IsBlank(lines[i]) {
        tail := lines[i] + "\n" + tail;
      }
    }
    out := tail;
  }

  /** Splitting terminated lines at '\n' gives the lines back, then the empty tail. */
  lemma {:induction false} TerminatedLines(lines: seq<string>)
    requires forall i :: 0 <= i < |lines| ==> '\n' !in lines[i]
    ensures FullSplit(Terminated(lines), '\n') == lines + [""]
  {
    if lines != [] {
      TerminatedLines(lines[1..]);
      FullSplitConcat(lines[0], Terminated(lines[1..]), '\n');
      assert lines[0] + "\n" + Terminated(lines[1..]) == lines[0] + ['\n'] + Terminated(lines[1..]);
      assert [lines[0]] + (lines[1..] + [""]) == lines + [""];
    }
  }

  /** stripCommentsAndWhitespace: comments first, then blank lines. */
  function Stripped(source: string): string
  {
    Terminated(NonBlankLines(Split(CodeText(source), '\n')))
  }

  /** stripCommentsAndWhitespace with the comment scanner as written. */
  function StrippedAsWritten(source: string): string
  {
    Terminated(NonBlankLines(Split(ScanAsWritten(Scan(false, false, false), source), '\n')))
  }

  /** Away from slash-star-slash, stripping as written and as corrected give the same text. */
  lemma StrippedAsWrittenAgrees(source: string)
    requires NoOpenerCloser(source)
    ensures StrippedAsWritten(source) == Stripped(source)
  {
    ScanAsWrittenIsCodeText(source);
  }

  method StripCommentsAndWhitespace(source: string) returns (out: string)
    ensures out == Stripped(source)
  {
    var text := StripComments(source);
    out := DropBlankLines(text);
  }

  /**
   * Every line of the stripped text is non-blank and ends in "\n": split at '\n', the text
   * gives the non-blank lines of the comment-free source, each free of '\n', and nothing
   * after the last newline.
   */
  lemma StrippedLines(source: string)
    ensures var lines := NonBlankLines(Split(CodeText(source), '\n'));
            && FullSplit(Stripped(source), '\n') == lines + [""]
            && (forall i :: 0 <= i < |lines| ==> !IsBlank(lines[i]) && '\n' !in lines[i])
  {
    var lines := NonBlankLines(Split(CodeText(source), '\n'));
    forall i | 0 <= i < |lines|
      ensures '\n' !in lines[i]
    {
      assert lines[i] in lines;
    }
    TerminatedLines(lines);
  }
}
