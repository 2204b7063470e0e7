/**
 * The passes of DefaultShaderPreProcessor over a whole shader: include expansion,
 * specialization constants, the built-in and program defines, and the final stripping.
 *
 * Every pass that re-runs a pattern until it no longer matches takes a `fuel` bound on the
 * number of rounds; running out of it is the `OutOfFuel` failure.
 */
module ShaderPreProcessor {
  import opened JavaLang
  import opened Wrappers
  import opened ShaderText
  import opened ShaderPatterns

  /** An exception the pre-processor throws, by its message, or a run cut off by the bound. */
  datatype Failure = Thrown(message: string) | OutOfFuel

  const PRINT_BUFFER_SIZE: nat := 4096

  // ---------------------------------------------------------------------------------------
  // LinkedHashMap<String, Object>
  // ---------------------------------------------------------------------------------------

  /** The entries of a map in iteration order; each value as "%s" prints it. */
  type Entries = seq<(string, string)>

  function Keys(m: Entries): (r: seq<string>)
    ensures |r| == |m|
  {
    if m == [] then [] else [m[0].0] + Keys(m[1..])
  }

  /** Map.get: the value under `key`, None standing for null. */
  function Lookup(m: Entries, key: string): (r: Option<string>)
    ensures r.None? <==> key !in Keys(m)
  {
    if m == [] then None
    else if m[0].0 == key then Some(m[0].1)
    else
      assert Keys(m) == [m[0].0] + Keys(m[1..]);
      Lookup(m[1..], key)
  }

  /** LinkedHashMap.put: the key now maps to `value` and no other key changes. */
  function Put(m: Entries, key: string, value: string): (r: Entries)
    ensures Lookup(r, key) == Some(value)
    ensures forall k :: k != key ==> Lookup(r, k) == Lookup(m, k)
  {
    if m == [] then [(key, value)]
    else if m[0].0 == key then [(key, value)] + m[1..]
    else
      var r := [m[0]] + Put(m[1..], key, value);
      assert r[1..] == Put(m[1..], key, value);
      r
  }

  /** An existing key keeps its place, a new key goes last. */
  lemma {:induction false} PutKeepsOrder(m: Entries, key: string, value: string)
    ensures key in Keys(m) ==> Keys(Put(m, key, value)) == Keys(m)
    ensures key !in Keys(m) ==> Keys(Put(m, key, value)) == Keys(m) + [key]
    ensures Keys(m) <= Keys(Put(m, key, value))
  {
    if m != [] {
      var r := Put(m, key, value);
      assert Keys(m) == [m[0].0] + Keys(m[1..]);
      if m[0].0 != key {
        PutKeepsOrder(m[1..], key, value);
        assert r[1..] == Put(m[1..], key, value);
        assert Keys(r) == [m[0].0] + Keys(r[1..]);
      }
    }
  }

  // ---------------------------------------------------------------------------------------
  // insertBuiltinConstants and insertBuiltinDefines
  // ---------------------------------------------------------------------------------------

  lemma PrintBufferSizeText()
    ensures DecimalString(PRINT_BUFFER_SIZE) == "4096"
  {
    assert DecimalDigits(4) == "4";
    assert DecimalDigits(40) == "40";
    assert DecimalDigits(409) == "409";
  }

  /** insertBuiltinConstants: PRINT_BUFFER_SIZE added to the program's constants, overriding them. */
  function WithBuiltinConstants(constants: Entries): (r: Entries)
    ensures Lookup(r, "PRINT_BUFFER_SIZE") == Some("4096")
    ensures forall k :: k != "PRINT_BUFFER_SIZE" ==> Lookup(r, k) == Lookup(constants, k)
  {
    PrintBufferSizeText();
    Put(constants, "PRINT_BUFFER_SIZE", DecimalString(PRINT_BUFFER_SIZE))
  }

  datatype ShaderType = Vertex | Fragment | TessCtrl | TessEval | Compute

  /** The enum's ordinal, in declaration order. */
  function Ordinal(t: ShaderType): (r: nat)
    ensures r < 5
  {
    match t
    case Vertex => 0
    case Fragment => 1
    case TessCtrl => 2
    case TessEval => 3
    case Compute => 4
  }

  lemma OrdinalInjective(a: ShaderType, b: ShaderType)
    ensures Ordinal(a) == Ordinal(b) <==> a == b
  {
  }

  /** What insertBuiltinDefines asks of the running game and of the GL context. */
  datatype Environment = Environment(isDevelopment: bool, hasSodium: bool, hasIris: bool, glVersion: string)

  /** A boolean as the define value `b ? 1 : 0`. */
  function Flag(b: bool): string
  {
    if b then "1" else "0"
  }

  /** The version pattern's leftmost match in `text`, with its three groups. */
  function FindVersion(text: string): (r: Option<Match>)
    ensures r == Find(GlVersionPattern, text, 0)
    ensures r.Some? ==> 1 in r.value.groups && 2 in r.value.groups && 3 in r.value.groups
  {
    FindIsLeftmost(GlVersionPattern, text, 0);
    Find(GlVersionPattern, text, 0)
  }

  /** The defines with the five flags and sizes put in, before the GL version is read. */
  function WithBuiltinFlags(t: ShaderType, defines: Entries, env: Environment): Entries
  {
    var d1 := Put(defines, "BUILTIN_DEBUG", Flag(env.isDevelopment));
    var d2 := Put(d1, "BUILTIN_PRINT_BUFFER_SIZE", DecimalString(PRINT_BUFFER_SIZE));
    var d3 := Put(d2, "BUILTIN_SHADER_TYPE", DecimalString(Ordinal(t)));
    var d4 := Put(d3, "BUILTIN_HAS_SODIUM", Flag(env.hasSodium));
    Put(d4, "BUILTIN_HAS_IRIS", Flag(env.hasIris))
  }

  /** The three version numbers put in after the flags. */
  function WithVersion(d: Entries, m: Match): Entries
    requires 1 in m.groups && 2 in m.groups && 3 in m.groups
  {
    var d1 := Put(d, "BUILTIN_GL_MAJOR", m.groups[1]);
    var d2 := Put(d1, "BUILTIN_GL_MINOR", m.groups[2]);
    Put(d2, "BUILTIN_GL_PATCH", m.groups[3])
  }

  /**
   * insertBuiltinDefines: the program's defines, then the built-ins; the GL version string
   * must hold "major.minor.patch", or "Could not parse OpenGL version" is thrown.
   */
  function BuiltinDefines(t: ShaderType, defines: Entries, env: Environment): Result<Entries, Failure>
  {
    match FindVersion(env.glVersion)
    case None => Err(Thrown("Could not parse OpenGL version"))
    case Some(m) => Ok(WithVersion(WithBuiltinFlags(t, defines, env), m))
  }

  const BUILTIN_FLAG_NAMES: set<string> :=
    {"BUILTIN_DEBUG", "BUILTIN_PRINT_BUFFER_SIZE", "BUILTIN_SHADER_TYPE", "BUILTIN_HAS_SODIUM", "BUILTIN_HAS_IRIS"}

  const BUILTIN_VERSION_NAMES: set<string> := {"BUILTIN_GL_MAJOR", "BUILTIN_GL_MINOR", "BUILTIN_GL_PATCH"}

  const BUILTIN_DEFINE_NAMES: set<string> := BUILTIN_FLAG_NAMES + BUILTIN_VERSION_NAMES

  lemma BuiltinNamesDisjoint()
    ensures "BUILTIN_DEBUG" !in BUILTIN_VERSION_NAMES && "BUILTIN_PRINT_BUFFER_SIZE" !in BUILTIN_VERSION_NAMES
    ensures "BUILTIN_SHADER_TYPE" !in BUILTIN_VERSION_NAMES && "BUILTIN_HAS_SODIUM" !in BUILTIN_VERSION_NAMES
    ensures "BUILTIN_HAS_IRIS" !in BUILTIN_VERSION_NAMES
  {
    assert |"BUILTIN_DEBUG"| == 13 && |"BUILTIN_PRINT_BUFFER_SIZE"| == 25 && |"BUILTIN_SHADER_TYPE"| == 19;
    assert |"BUILTIN_HAS_SODIUM"| == 18 && "BUILTIN_HAS_IRIS"[9] == 'A' && "BUILTIN_GL_MAJOR"[9] == 'L';
    assert "BUILTIN_GL_MINOR"[9] == 'L' && "BUILTIN_GL_PATCH"[9] == 'L';
  }

  /** The five flags and sizes, each overriding a program define of that name; nothing else changes. */
  lemma BuiltinFlagValues(t: ShaderType, defines: Entries, env: Environment)
    ensures var r := WithBuiltinFlags(t, defines, env);
            && Lookup(r, "BUILTIN_DEBUG") == Some(Flag(env.isDevelopment))
            && Lookup(r, "BUILTIN_PRINT_BUFFER_SIZE") == Some("4096")
            && Lookup(r, "BUILTIN_SHADER_TYPE") == Some(DecimalString(Ordinal(t)))
            && Lookup(r, "BUILTIN_HAS_SODIUM") == Some(Flag(env.hasSodium))
            && Lookup(r, "BUILTIN_HAS_IRIS") == Some(Flag(env.hasIris))
            && (forall k :: k !in BUILTIN_FLAG_NAMES ==> Lookup(r, k) == Lookup(defines, k))
  {
    PrintBufferSizeText();
    var d1 := Put(defines, "BUILTIN_DEBUG", Flag(env.isDevelopment));
    var d2 := Put(d1, "BUILTIN_PRINT_BUFFER_SIZE", DecimalString(PRINT_BUFFER_SIZE));
    var d3 := Put(d2, "BUILTIN_SHADER_TYPE", DecimalString(Ordinal(t)));
    var d4 := Put(d3, "BUILTIN_HAS_SODIUM", Flag(env.hasSodium));
    var d5 := Put(d4, "BUILTIN_HAS_IRIS", Flag(env.hasIris));
    assert |"BUILTIN_DEBUG"| == 13 && |"BUILTIN_PRINT_BUFFER_SIZE"| == 25 && |"BUILTIN_SHADER_TYPE"| == 19;
    assert |"BUILTIN_HAS_SODIUM"| == 18 && |"BUILTIN_HAS_IRIS"| == 16;
  }

  /** The three version numbers, each overriding a define of that name; nothing else changes. */
  lemma VersionValues(d: Entries, m: Match)
    requires 1 in m.groups && 2 in m.groups && 3 in m.groups
    ensures var r := WithVersion(d, m);
            && Lookup(r, "BUILTIN_GL_MAJOR") == Some(m.groups[1])
            && Lookup(r, "BUILTIN_GL_MINOR") == Some(m.groups[2])
            && Lookup(r, "BUILTIN_GL_PATCH") == Some(m.groups[3])
            && (forall k :: k !in BUILTIN_VERSION_NAMES ==> Lookup(r, k) == Lookup(d, k))
  {
    assert "BUILTIN_GL_MAJOR"[11] == 'M' && "BUILTIN_GL_MINOR"[11] == 'M' && "BUILTIN_GL_PATCH"[11] == 'P';
    assert "BUILTIN_GL_MAJOR"[12] == 'A' && "BUILTIN_GL_MINOR"[12] == 'I';
  }

  /** Without a version number in the GL version string, insertBuiltinDefines throws. */
  lemma BuiltinDefinesNeedVersion(t: ShaderType, defines: Entries, env: Environment)
    ensures var r := BuiltinDefines(t, defines, env);
            && (r.Err? <==> Find(GlVersionPattern, env.glVersion, 0).None?)
            && (r.Err? ==> r.error == Thrown("Could not parse OpenGL version"))
            && (r.Ok? ==> r.value == WithVersion(WithBuiltinFlags(t, defines, env), Find(GlVersionPattern, env.glVersion, 0).value))
  {
  }

  /**
   * What the built-in defines hold: the flags, the print buffer size, the shader type's
   * ordinal and the three version numbers, each overriding a program define of that name;
   * every other define is untouched.
   */
  lemma BuiltinDefineValues(t: ShaderType, defines: Entries, env: Environment, m: Match)
    requires 1 in m.groups && 2 in m.groups && 3 in m.groups
    ensures var r := WithVersion(WithBuiltinFlags(t, defines, env), m);
            && Lookup(r, "BUILTIN_DEBUG") == Some(Flag(env.isDevelopment))
            && Lookup(r, "BUILTIN_PRINT_BUFFER_SIZE") == Some("4096")
            && Lookup(r, "BUILTIN_SHADER_TYPE") == Some(DecimalString(Ordinal(t)))
            && Lookup(r, "BUILTIN_HAS_SODIUM") == Some(Flag(env.hasSodium))
            && Lookup(r, "BUILTIN_HAS_IRIS") == Some(Flag(env.hasIris))
            && Lookup(r, "BUILTIN_GL_MAJOR") == Some(m.groups[1])
            && Lookup(r, "BUILTIN_GL_MINOR") == Some(m.groups[2])
            && Lookup(r, "BUILTIN_GL_PATCH") == Some(m.groups[3])
            && (forall k :: k !in BUILTIN_DEFINE_NAMES ==> Lookup(r, k) == Lookup(defines, k))
  {
    var d := WithBuiltinFlags(t, defines, env);
    BuiltinFlagValues(t, defines, env);
    VersionValues(d, m);
    BuiltinNamesDisjoint();
  }

  lemma FlagsKeepOrder(t: ShaderType, defines: Entries, env: Environment)
    ensures Keys(defines) <= Keys(WithBuiltinFlags(t, defines, env))
  {
    var d1 := Put(defines, "BUILTIN_DEBUG", Flag(env.isDevelopment));
    var d2 := Put(d1, "BUILTIN_PRINT_BUFFER_SIZE", DecimalString(PRINT_BUFFER_SIZE));
    var d3 := Put(d2, "BUILTIN_SHADER_TYPE", DecimalString(Ordinal(t)));
    var d4 := Put(d3, "BUILTIN_HAS_SODIUM", Flag(env.hasSodium));
    PutKeepsOrder(defines, "BUILTIN_DEBUG", Flag(env.isDevelopment));
    PutKeepsOrder(d1, "BUILTIN_PRINT_BUFFER_SIZE", DecimalString(PRINT_BUFFER_SIZE));
    PutKeepsOrder(d2, "BUILTIN_SHADER_TYPE", DecimalString(Ordinal(t)));
    PutKeepsOrder(d3, "BUILTIN_HAS_SODIUM", Flag(env.hasSodium));
    PutKeepsOrder(d4, "BUILTIN_HAS_IRIS", Flag(env.hasIris));
  }

  /** The program's defines come first, in their own order, before any built-in that is new. */
  lemma ProgramDefinesFirst(t: ShaderType, defines: Entries, env: Environment, m: Match)
    requires 1 in m.groups && 2 in m.groups && 3 in m.groups
    ensures Keys(defines) <= Keys(WithVersion(WithBuiltinFlags(t, defines, env), m))
  {
    var d5 := WithBuiltinFlags(t, defines, env);
    var d6 := Put(d5, "BUILTIN_GL_MAJOR", m.groups[1]);
    var d7 := Put(d6, "BUILTIN_GL_MINOR", m.groups[2]);
    FlagsKeepOrder(t, defines, env);
    PutKeepsOrder(d5, "BUILTIN_GL_MAJOR", m.groups[1]);
    PutKeepsOrder(d6, "BUILTIN_GL_MINOR", m.groups[2]);
    PutKeepsOrder(d7, "BUILTIN_GL_PATCH", m.groups[3]);
  }

  /** A driver's version string such as "4.6.0 NVIDIA 550.54" gives major 4, minor 6 and patch 0. */
  lemma BuiltinVersionExample(t: ShaderType, defines: Entries, isDevelopment: bool, hasSodium: bool, hasIris: bool)
    ensures var env := Environment(isDevelopment, hasSodium, hasIris, "4.6.0 NVIDIA 550.54");
            BuiltinDefines(t, defines, env)
            == Ok(WithVersion(WithBuiltinFlags(t, defines, env), Match(0, 5, map[1 := "4", 2 := "6", 3 := "0"])))
  {
    VersionStringExample();
  }

  lemma VersionStringExample()
    ensures Find(GlVersionPattern, "4.6.0 NVIDIA 550.54", 0) == Some(Match(0, 5, map[1 := "4", 2 := "6", 3 := "0"]))
  {
    assert "4.6.0 NVIDIA 550.54" == "4" + "." + "6" + "." + "0" + " NVIDIA 550.54";
    RecognisesVersion("4", "6", "0", " NVIDIA 550.54");
  }

  // ---------------------------------------------------------------------------------------
  // processDefines
  // ---------------------------------------------------------------------------------------

  /** "#define K V" for each entry, in map order. */
  function DefineDirectives(m: Entries): (r: seq<string>)
    ensures |r| == |m|
  {
    seq(|m|, i requires 0 <= i < |m| => "#define " + m[i].0 + " " + m[i].1)
  }

  /** The block processDefines builds: each directive on a line of its own. */
  function DefineBlock(m: Entries): string
  {
    Terminated(DefineDirectives(m))
  }

  /**
   * Where the block goes: just after the first '\n' at or after the first "#version"; with no
   * "#version" the search for '\n' starts at 0, and with no '\n' the block goes first.
   */
  function InsertionPoint(buffer: string): (at: nat)
    ensures at <= |buffer|
    ensures at == 0 || buffer[at - 1] == '\n'
  {
    var n := IndexOfFrom(buffer, "\n", IndexOf(buffer, "#version"));
    assert n != -1 ==> buffer[n..n + 1][0] == buffer[n];
    n + 1
  }

  function InsertDefines(defines: Entries, buffer: string): string
  {
    var at := InsertionPoint(buffer);
    buffer[..at] + DefineBlock(defines) + buffer[at..]
  }

  lemma {:induction false} TerminatedSnoc(lines: seq<string>, line: string)
    ensures Terminated(lines + [line]) == Terminated(lines) + line + "\n"
    decreases |lines|
  {
    if lines == [] {
      assert [] + [line] == [line];
    } else {
      assert (lines + [line])[1..] == lines[1..] + [line];
      TerminatedSnoc(lines[1..], line);
    }
  }

  method ProcessDefines(defines: Entries, buffer: string) returns (out: string)
    ensures out == InsertDefines(defines, buffer)
  {
    var block := "";
    var i := 0;
    while i < |defines|
      invariant 0 <= i <= |defines|
      invariant block == DefineBlock(defines[..i])
    {
      var line := "#define " + defines[i].0 + " " + defines[i].1;
      assert DefineDirectives(defines[..i + 1]) == DefineDirectives(defines[..i]) + [line];
      TerminatedSnoc(DefineDirectives(defines[..i]), line);
      block := block + line + "\n";
      i := i + 1;
    }
    assert defines[..i] == defines;
    var at := IndexOfFrom(buffer, "\n", IndexOf(buffer, "#version")) + 1;
    out := buffer[..at] + block + buffer[at..];
  }

  /**
   * The block is one "#define K V" line per entry, in map order, when no key or value holds
   * a line break.
   */
  lemma DefineBlockLines(m: Entries)
    requires forall i :: 0 <= i < |m| ==> '\n' !in m[i].0 && '\n' !in m[i].1
    ensures FullSplit(DefineBlock(m), '\n') == DefineDirectives(m) + [""]
  {
    var lines := DefineDirectives(m);
    forall i | 0 <= i < |lines|
      ensures '\n' !in lines[i]
    {
      assert lines[i] == "#define " + m[i].0 + " " + m[i].1;
    }
    TerminatedLines(lines);
  }

  /**
   * With a "#version" at `v` (the first one) whose line ends at the newline `n`, the block goes
   * right after that line.
   */
  lemma DefinesFollowVersionLine(defines: Entries, buffer: string, v: nat, n: nat)
    requires MatchAt(buffer, "#version", v)
    requires forall j :: 0 <= j < v ==> !MatchAt(buffer, "#version", j)
    requires v <= n < |buffer| && buffer[n] == '\n'
    requires forall j :: v <= j < n ==> buffer[j] != '\n'
    ensures InsertDefines(defines, buffer) == buffer[..n + 1] + DefineBlock(defines) + buffer[n + 1..]
  {
    assert IndexOf(buffer, "#version") == v;
    var r := IndexOfFrom(buffer, "\n", v);
    assert MatchAt(buffer, "\n", n);
    assert buffer[r..r + 1][0] == buffer[r];
  }

  /** With no line break after the first "#version" (or none at all), the block goes first. */
  lemma DefinesFirstWithoutLineBreak(defines: Entries, buffer: string)
    requires var v := IndexOf(buffer, "#version");
             forall j :: (if v < 0 then 0 else v) <= j < |buffer| ==> buffer[j] != '\n'
    ensures InsertDefines(defines, buffer) == DefineBlock(defines) + buffer
  {
    var v := IndexOf(buffer, "#version");
  }

  // ---------------------------------------------------------------------------------------
  // processSpecializationConstants
  // ---------------------------------------------------------------------------------------

  /** A resource location; ResourceLocation.toString prints "namespace:path". */
  datatype Location = Location(namespace: string, path: string)

  /** The characters ResourceLocation accepts in a path: a-z, 0-9, '/', '.', '_' and '-'. */
  predicate IsPathChar(c: char)
  {
    'a' <= c <= 'z' || '0' <= c <= '9' || c == '/' || c == '.' || c == '_' || c == '-'
  }

  predicate ValidPath(path: string)
  {
    forall i :: 0 <= i < |path| ==> IsPathChar(path[i])
  }

  function LocationString(l: Location): string
  {
    l.namespace + ":" + l.path
  }

  /** The declaration pattern's leftmost match, with its type and name groups. */
  function FindDeclaration(buffer: string): (r: Option<Match>)
    ensures r == Find(SpecialConstPattern, buffer, 0)
    ensures r.Some? ==> r.value.start < r.value.end <= |buffer| && 3 in r.value.groups && 4 in r.value.groups
  {
    FindIsLeftmost(SpecialConstPattern, buffer, 0);
    Find(SpecialConstPattern, buffer, 0)
  }

  /** What a declaration becomes: "const T N = v;". */
  function ConstDeclaration(typeName: string, name: string, value: string): string
  {
    "const " + typeName + " " + name + " = " + value + ";"
  }

  /**
   * The callback for one declaration: "const T N = v;", where v is the program's value for N
   * and, when there is none, the declared default; with neither it throws.
   */
  function ConstantReplacement(location: Location, m: Match, constants: Entries): Result<string, Failure>
    requires 3 in m.groups && 4 in m.groups
  {
    var typeName := m.groups[3];
    var name := m.groups[4];
    var value := Lookup(constants, name);
    if 6 in m.groups then Ok(ConstDeclaration(typeName, name, value.GetOr(m.groups[6])))
    else if value.None? then
      Err(Thrown("Value for constant '" + name + "' in object " + LocationString(location) + " not defined"))
    else Ok(ConstDeclaration(typeName, name, value.value))
  }

  /**
   * processGreedy with the declaration pattern: the leftmost declaration is replaced and the
   * search starts over on the new text, until none is left.
   */
  function ConstantsPass(location: Location, constants: Entries, buffer: string, fuel: nat): Result<string, Failure>
  {
    Iterate(DeclarationStep(location, constants), buffer, fuel)
  }

  /**
   * A bound that is enough stays enough: a result other than OutOfFuel is the result for every
   * larger bound too, so OutOfFuel under every bound is the pass that never ends.
   */
  lemma ConstantsPassFuelMonotone(location: Location, constants: Entries, buffer: string, fuel: nat, more: nat)
    requires fuel <= more
    requires ConstantsPass(location, constants, buffer, fuel) != Err(OutOfFuel)
    ensures ConstantsPass(location, constants, buffer, more) == ConstantsPass(location, constants, buffer, fuel)
  {
    IterateFuelMonotone(DeclarationStep(location, constants), buffer, fuel, more);
  }

  /**
   * One round of the pass as a value: None when the text holds no declaration, otherwise the
   * callback's outcome, spliced into the text when it succeeds.
   */
  function DeclarationRound(location: Location, constants: Entries, s: string): Option<Result<string, Failure>>
  {
    match FindDeclaration(s)
    case None => None
    case Some(m) =>
      match ConstantReplacement(location, m, constants)
      case Err(e) => Some(Err(e))
      case Ok(text) => Some(Ok(s[..m.start] + text + s[m.end..]))
  }

  function DeclarationStep(location: Location, constants: Entries): string -> Option<Result<string, Failure>>
  {
    s => DeclarationRound(location, constants, s)
  }

  /** Any pass of this shape: rounds given by `step`, stopping when it has nothing to do. */
  function Iterate(step: string -> Option<Result<string, Failure>>, s: string, fuel: nat): Result<string, Failure>
    decreases fuel
  {
    match step(s)
    case None => Ok(s)
    case Some(r) =>
      if fuel == 0 then Err(OutOfFuel)
      else match r
        case Err(e) => Err(e)
        case Ok(next) => Iterate(step, next, fuel - 1)
  }

  /** Whatever the rounds are, a bound that is enough stays enough. */
  lemma {:induction false} IterateFuelMonotone(step: string -> Option<Result<string, Failure>>, s: string,
                                              fuel: nat, more: nat)
    requires fuel <= more
    requires Iterate(step, s, fuel) != Err(OutOfFuel)
    ensures Iterate(step, s, more) == Iterate(step, s, fuel)
    decreases fuel
  {
    if step(s).Some? && step(s).value.Ok? {
      IterateFuelMonotone(step, step(s).value.value, fuel - 1, more - 1);
    }
  }

  /**
   * processGreedy with the declaration pattern, as a loop: find the leftmost declaration,
   * replace it, start over on the new text.
   */
  method ProcessSpecializationConstants(location: Location, constants: Entries, buffer: string, fuel: nat)
    returns (r: Result<string, Failure>)
    ensures r == ConstantsPass(location, constants, buffer, fuel)
  {
    ghost var goal := ConstantsPass(location, constants, buffer, fuel);
    var text := buffer;
    var rounds := fuel;
    while rounds > 0
      invariant ConstantsPass(location, constants, text, rounds) == goal
    {
      var done, result, next := ConstantsRound(location, constants, text, rounds);
      if done {
        return result;
      }
      text := next;
      rounds := rounds - 1;
    }
    var found := FindDeclaration(text);
    ConstantsPassStops(location, constants, text, rounds);
    r := if found.None? then Ok(text) else Err(OutOfFuel);
  }

  /**
   * One round of processGreedy: either the pass ends here with `result`, or the leftmost
   * declaration is replaced and the rest of the pass runs on `next`.
   */
  method ConstantsRound(location: Location, constants: Entries, text: string, rounds: nat)
    returns (done: bool, result: Result<string, Failure>, next: string)
    requires rounds > 0
    ensures done ==> result == ConstantsPass(location, constants, text, rounds)
    ensures !done ==> ConstantsPass(location, constants, next, rounds - 1) == ConstantsPass(location, constants, text, rounds)
  {
    var found := FindDeclaration(text);
    ConstantsPassStops(location, constants, text, rounds);
    if found.None? {
      return true, Ok(text), text;
    }
    var replacement := ConstantReplacement(location, found.value, constants);
    if replacement.Err? {
      return true, Err(replacement.error), text;
    }
    next := text[..found.value.start] + replacement.value + text[found.value.end..];
    PassContinues(location, constants, text, found.value, replacement.value, next, rounds,
                  ConstantsPass(location, constants, text, rounds));
    done, result := false, Ok(next);
  }

  /** No declaration can start where there is no 's'. */
  lemma NoDeclarationBefore(s: string, n: nat)
    requires n <= |s| && 's' !in s[..n]
    ensures forall j :: 0 <= j < n ==> MatchPatternAt(SpecialConstPattern, s, j).None?
  {
    forall j | 0 <= j < n
      ensures MatchPatternAt(SpecialConstPattern, s, j).None?
    {
      assert s[..n][j] == s[j];
    }
  }

  /** Text without an 's' holds no declaration, and the pass leaves it as it is. */
  lemma ConstantsPassWithoutDeclaration(location: Location, constants: Entries, buffer: string, fuel: nat)
    requires 's' !in buffer
    ensures ConstantsPass(location, constants, buffer, fuel) == Ok(buffer)
  {
    assert buffer[..|buffer|] == buffer;
    NoDeclarationBefore(buffer, |buffer|);
    FindIsLeftmost(SpecialConstPattern, buffer, 0);
  }

  /** A declaration at `k`, behind text without an 's' and after a word boundary, is the leftmost one. */
  lemma LeftmostDeclarationWithDefault(s: string, k: nat, typeName: string, name: string, default: string)
    requires k + |typeName| + |name| + |default| + 19 <= |s|
    requires s[k..k + |typeName| + |name| + |default| + 19] == DeclarationWithDefault(typeName, name, default)
    requires 's' !in s[..k] && (k == 0 || !IsWordChar(s[k - 1]))
    requires typeName != [] && AllIn(Word, typeName) && name != [] && AllIn(Word, name)
    requires default != [] && AllIn(ConstValue, default)
    ensures FindDeclaration(s).Some?
            && FindDeclaration(s).value == Match(k, k + |typeName| + |name| + |default| + 19, map[3 := typeName, 4 := name, 6 := default])
  {
    var n := k + |typeName| + |name| + |default| + 19;
    assert s == s[..k] + DeclarationWithDefault(typeName, name, default) + s[n..];
    DeclarationLayout(s[..k], typeName, name, default, s[n..]);
    RecognisesDeclarationWithDefault(s, k, typeName, name, default);
    NoDeclarationBefore(s, k);
    FindFirst(SpecialConstPattern, s, k);
  }

  lemma LeftmostDeclarationWithoutDefault(s: string, k: nat, typeName: string, name: string)
    requires k + |typeName| + |name| + 16 <= |s|
    requires s[k..k + |typeName| + |name| + 16] == DeclarationWithoutDefault(typeName, name)
    requires 's' !in s[..k] && (k == 0 || !IsWordChar(s[k - 1]))
    requires typeName != [] && AllIn(Word, typeName) && name != [] && AllIn(Word, name)
    ensures FindDeclaration(s).Some?
            && FindDeclaration(s).value == Match(k, k + |typeName| + |name| + 16, map[3 := typeName, 4 := name])
  {
    var n := k + |typeName| + |name| + 16;
    assert s == s[..k] + DeclarationWithoutDefault(typeName, name) + s[n..];
    BareDeclarationLayout(s[..k], typeName, name, s[n..]);
    RecognisesDeclarationWithoutDefault(s, k, typeName, name);
    NoDeclarationBefore(s, k);
    FindFirst(SpecialConstPattern, s, k);
  }

  /** The canonical declaration behind text without an 's' is the leftmost one. */
  lemma FirstDeclarationWithDefault(pre: string, typeName: string, name: string, default: string, post: string)
    requires 's' !in pre && (pre == [] || !IsWordChar(pre[|pre| - 1]))
    requires typeName != [] && AllIn(Word, typeName) && name != [] && AllIn(Word, name)
    requires default != [] && AllIn(ConstValue, default)
    ensures var s := pre + DeclarationWithDefault(typeName, name, default) + post;
            FindDeclaration(s).Some?
            && FindDeclaration(s).value == Match(|pre|, |pre| + |typeName| + |name| + |default| + 19, map[3 := typeName, 4 := name, 6 := default])
  {
    var decl := DeclarationWithDefault(typeName, name, default);
    var s := pre + decl + post;
    assert |decl| == |typeName| + |name| + |default| + 19;
    assert s[..|pre|] == pre && s[|pre|..|pre| + |decl|] == decl;
    assert pre != [] ==> s[|pre| - 1] == pre[|pre| - 1];
    LeftmostDeclarationWithDefault(s, |pre|, typeName, name, default);
  }

  lemma FirstDeclarationWithoutDefault(pre: string, typeName: string, name: string, post: string)
    requires 's' !in pre && (pre == [] || !IsWordChar(pre[|pre| - 1]))
    requires typeName != [] && AllIn(Word, typeName) && name != [] && AllIn(Word, name)
    ensures var s := pre + DeclarationWithoutDefault(typeName, name) + post;
            FindDeclaration(s).Some? && FindDeclaration(s).value == Match(|pre|, |pre| + |typeName| + |name| + 16, map[3 := typeName, 4 := name])
  {
    var decl := DeclarationWithoutDefault(typeName, name);
    var s := pre + decl + post;
    assert |decl| == |typeName| + |name| + 16;
    assert s[..|pre|] == pre && s[|pre|..|pre| + |decl|] == decl;
    assert pre != [] ==> s[|pre| - 1] == pre[|pre| - 1];
    LeftmostDeclarationWithoutDefault(s, |pre|, typeName, name);
  }

  /** One round of the pass: the leftmost declaration is replaced by the callback's text. */
  lemma ConstantsPassStep(location: Location, constants: Entries, s: string, m: Match, text: string, fuel: nat)
    requires FindDeclaration(s).Some? && FindDeclaration(s).value == m && fuel > 0
    requires ConstantReplacement(location, m, constants).Ok? && ConstantReplacement(location, m, constants).value == text
    ensures ConstantsPass(location, constants, s, fuel)
            == ConstantsPass(location, constants, s[..m.start] + text + s[m.end..], fuel - 1)
  {
  }

  /** How the pass ends when the text holds no declaration, the fuel is spent or the callback throws. */
  lemma ConstantsPassStops(location: Location, constants: Entries, s: string, fuel: nat)
    ensures FindDeclaration(s).None? ==> ConstantsPass(location, constants, s, fuel) == Ok(s)
    ensures FindDeclaration(s).Some? && fuel == 0 ==> ConstantsPass(location, constants, s, fuel) == Err(OutOfFuel)
    ensures FindDeclaration(s).Some? && fuel > 0 && ConstantReplacement(location, FindDeclaration(s).value, constants).Err?
            ==> ConstantsPass(location, constants, s, fuel) == Err(ConstantReplacement(location, FindDeclaration(s).value, constants).error)
  {
  }

  /** The rest of the pass, after one round, is the same as before it. */
  lemma PassContinues(location: Location, constants: Entries, s: string, m: Match, text: string, next: string,
                      fuel: nat, goal: Result<string, Failure>)
    requires FindDeclaration(s).Some? && FindDeclaration(s).value == m && fuel > 0
    requires ConstantReplacement(location, m, constants).Ok? && ConstantReplacement(location, m, constants).value == text
    requires next == s[..m.start] + text + s[m.end..]
    requires ConstantsPass(location, constants, s, fuel) == goal
    ensures ConstantsPass(location, constants, next, fuel - 1) == goal
  {
    ConstantsPassStep(location, constants, s, m, text, fuel);
  }

  /** The same round, with the text around the declaration named. */
  lemma ConstantsPassRewrite(location: Location, constants: Entries, s: string, m: Match, pre: string, text: string,
                             post: string, fuel: nat)
    requires FindDeclaration(s).Some? && FindDeclaration(s).value == m && fuel > 0
    requires ConstantReplacement(location, m, constants).Ok? && ConstantReplacement(location, m, constants).value == text
    requires s[..m.start] == pre && s[m.end..] == post
    ensures ConstantsPass(location, constants, s, fuel) == ConstantsPass(location, constants, pre + text + post, fuel - 1)
  {
    ConstantsPassStep(location, constants, s, m, text, fuel);
  }

  /**
   * "special const T N = d;" becomes "const T N = v;", where v is the program's value for N
   * and d when it has none; the pass then goes on over the new text.
   */
  lemma RewritesDeclarationWithDefault(location: Location, constants: Entries, pre: string, typeName: string,
                                       name: string, default: string, post: string, fuel: nat)
    requires 's' !in pre && (pre == [] || !IsWordChar(pre[|pre| - 1]))
    requires typeName != [] && AllIn(Word, typeName) && name != [] && AllIn(Word, name)
    requires default != [] && AllIn(ConstValue, default)
    requires fuel > 0
    ensures var value := Lookup(constants, name).GetOr(default);
            ConstantsPass(location, constants, pre + DeclarationWithDefault(typeName, name, default) + post, fuel)
            == ConstantsPass(location, constants, pre + ConstDeclaration(typeName, name, value) + post, fuel - 1)
  {
    var decl := DeclarationWithDefault(typeName, name, default);
    var s := pre + decl + post;
    var m := Match(|pre|, |pre| + |typeName| + |name| + |default| + 19, map[3 := typeName, 4 := name, 6 := default]);
    assert |decl| == |typeName| + |name| + |default| + 19;
    assert s[..|pre|] == pre && s[m.end..] == post;
    FirstDeclarationWithDefault(pre, typeName, name, default, post);
    var text := ConstDeclaration(typeName, name, Lookup(constants, name).GetOr(default));
    ConstantsPassRewrite(location, constants, s, m, pre, text, post, fuel);
  }

  /** "special const T N;" becomes "const T N = v;" when the program gives N the value v. */
  lemma RewritesDeclarationWithoutDefault(location: Location, constants: Entries, pre: string, typeName: string,
                                          name: string, post: string, fuel: nat)
    requires 's' !in pre && (pre == [] || !IsWordChar(pre[|pre| - 1]))
    requires typeName != [] && AllIn(Word, typeName) && name != [] && AllIn(Word, name)
    requires Lookup(constants, name).Some? && fuel > 0
    ensures ConstantsPass(location, constants, pre + DeclarationWithoutDefault(typeName, name) + post, fuel)
            == ConstantsPass(location, constants, pre + ConstDeclaration(typeName, name, Lookup(constants, name).value) + post, fuel - 1)
  {
    var decl := DeclarationWithoutDefault(typeName, name);
    var s := pre + decl + post;
    var m := Match(|pre|, |pre| + |typeName| + |name| + 16, map[3 := typeName, 4 := name]);
    assert |decl| == |typeName| + |name| + 16;
    assert s[..|pre|] == pre && s[m.end..] == post;
    FirstDeclarationWithoutDefault(pre, typeName, name, post);
    var text := ConstDeclaration(typeName, name, Lookup(constants, name).value);
    ConstantsPassRewrite(location, constants, s, m, pre, text, post, fuel);
  }

  /** "special const T N;" with no value for N throws, naming the constant and the shader. */
  lemma UndefinedConstantFails(location: Location, constants: Entries, pre: string, typeName: string,
                               name: string, post: string, fuel: nat)
    requires 's' !in pre && (pre == [] || !IsWordChar(pre[|pre| - 1]))
    requires typeName != [] && AllIn(Word, typeName) && name != [] && AllIn(Word, name)
    requires name !in Keys(constants) && fuel > 0
    ensures ConstantsPass(location, constants, pre + DeclarationWithoutDefault(typeName, name) + post, fuel)
            == Err(Thrown("Value for constant '" + name + "' in object " + LocationString(location) + " not defined"))
  {
    FirstDeclarationWithoutDefault(pre, typeName, name, post);
  }
}
