/**
 * DefaultShaderPreProcessor.process: includes, then specialization constants (with the
 * built-in PRINT_BUFFER_SIZE), then the program's and the built-in defines, then comments and
 * blank lines are stripped. The first pass that throws ends the run.
 */
module ShaderProcess {
  import opened Wrappers
  import opened JavaLang
  import opened ShaderText
  import opened ShaderPatterns
  import opened ShaderPreProcessor
  import opened ShaderIncludes

  /** The shader object and program a source is processed for. */
  datatype Job = Job(location: Location, shaderType: ShaderType, constants: Entries, defines: Entries)

  /** The passes in order; `fuel` bounds every pass that repeats until nothing matches. */
  function Processed(job: Job, env: Environment, source: string, loader: Location -> string,
                     parse: string -> Option<Location>, fuel: nat): Result<string, Failure>
  {
    match Expand(IncludeOnce, loader, parse, job.location, source, {}, fuel)
    case Err(e) => Err(e)
    case Ok(included) =>
      match ConstantsPass(job.location, WithBuiltinConstants(job.constants), included.0, fuel)
      case Err(e) => Err(e)
      case Ok(constant) =>
        match BuiltinDefines(job.shaderType, job.defines, env)
        case Err(e) => Err(e)
        case Ok(defines) => Ok(Stripped(InsertDefines(defines, constant)))
  }

  /**
   * The passes as the code is written: a directive whose target was included before is found
   * again and again, and comments are removed by the scanner as written.
   */
  function ProcessedAsWritten(job: Job, env: Environment, source: string, loader: Location -> string,
                              parse: string -> Option<Location>, fuel: nat): Result<string, Failure>
  {
    match Expand(AsWritten, loader, parse, job.location, source, {}, fuel)
    case Err(e) => Err(e)
    case Ok(included) =>
      match ConstantsPass(job.location, WithBuiltinConstants(job.constants), included.0, fuel)
      case Err(e) => Err(e)
      case Ok(constant) =>
        match BuiltinDefines(job.shaderType, job.defines, env)
        case Err(e) => Err(e)
        case Ok(defines) => Ok(StrippedAsWritten(InsertDefines(defines, constant)))
  }

  /**
   * Where the passes as written succeed on a text with no slash-star-slash left after the
   * defines go in, the corrected passes give the same output.
   */
  lemma AsWrittenSuccessIsProcessed(job: Job, env: Environment, source: string, loader: Location -> string,
                                    parse: string -> Option<Location>, fuel: nat)
    requires ProcessedAsWritten(job, env, source, loader, parse, fuel).Ok?
    requires var included := Expand(AsWritten, loader, parse, job.location, source, {}, fuel).value.0;
             var constant := ConstantsPass(job.location, WithBuiltinConstants(job.constants), included, fuel).value;
             NoOpenerCloser(InsertDefines(BuiltinDefines(job.shaderType, job.defines, env).value, constant))
    ensures Processed(job, env, source, loader, parse, fuel) == ProcessedAsWritten(job, env, source, loader, parse, fuel)
  {
    AsWrittenResultAgrees(loader, parse, job.location, source, {}, fuel);
    var included := Expand(AsWritten, loader, parse, job.location, source, {}, fuel).value.0;
    var constant := ConstantsPass(job.location, WithBuiltinConstants(job.constants), included, fuel).value;
    StrippedAsWrittenAgrees(InsertDefines(BuiltinDefines(job.shaderType, job.defines, env).value, constant));
  }

  /** A failure of the passes as written is a failure of the corrected passes, unless it is running out. */
  lemma AsWrittenFailureIsProcessed(job: Job, env: Environment, source: string, loader: Location -> string,
                                    parse: string -> Option<Location>, fuel: nat)
    requires ProcessedAsWritten(job, env, source, loader, parse, fuel).Err?
    requires ProcessedAsWritten(job, env, source, loader, parse, fuel).error != OutOfFuel
    ensures Processed(job, env, source, loader, parse, fuel) == ProcessedAsWritten(job, env, source, loader, parse, fuel)
  {
    AsWrittenResultAgrees(loader, parse, job.location, source, {}, fuel);
  }

  method Process(job: Job, env: Environment, source: string, loader: Location -> string,
                 parse: string -> Option<Location>, fuel: nat)
    returns (r: Result<string, Failure>)
    ensures r == Processed(job, env, source, loader, parse, fuel)
  {
    var included := ProcessIncludes(IncludeOnce, job.location, source, loader, parse, fuel);
    if included.Err? {
      return Err(included.error);
    }
    var constant := ProcessSpecializationConstants(job.location, WithBuiltinConstants(job.constants),
                                                   included.value, fuel);
    if constant.Err? {
      return Err(constant.error);
    }
    var defines := BuiltinDefines(job.shaderType, job.defines, env);
    if defines.Err? {
      return Err(defines.error);
    }
    var withDefines := ProcessDefines(defines.value, constant.value);
    var stripped := StripCommentsAndWhitespace(withDefines);
    return Ok(stripped);
  }

  /**
   * The output is made of lines, each non-blank and ended by "\n": the non-blank lines of the
   * comment-free text with the define block in place.
   */
  lemma ProcessedLines(job: Job, env: Environment, source: string, loader: Location -> string,
                       parse: string -> Option<Location>, fuel: nat)
    requires Processed(job, env, source, loader, parse, fuel).Ok?
    ensures var out := Processed(job, env, source, loader, parse, fuel).value;
            exists lines: seq<string> ::
              && FullSplit(out, '\n') == lines + [""]
              && (forall i :: 0 <= i < |lines| ==> !IsBlank(lines[i]) && '\n' !in lines[i])
  {
    var included := Expand(IncludeOnce, loader, parse, job.location, source, {}, fuel).value.0;
    var constant := ConstantsPass(job.location, WithBuiltinConstants(job.constants), included, fuel).value;
    var defines := BuiltinDefines(job.shaderType, job.defines, env).value;
    var text := InsertDefines(defines, constant);
    StrippedLines(text);
    var lines := NonBlankLines(Split(CodeText(text), '\n'));
    assert FullSplit(Stripped(text), '\n') == lines + [""];
  }

  /** No include directive is left when the include pass hands its text on. */
  lemma IncludesExpandedFirst(job: Job, env: Environment, source: string, loader: Location -> string,
                              parse: string -> Option<Location>, fuel: nat)
    requires Processed(job, env, source, loader, parse, fuel).Ok?
    ensures Expand(IncludeOnce, loader, parse, job.location, source, {}, fuel).Ok?
    ensures FindInclude(Expand(IncludeOnce, loader, parse, job.location, source, {}, fuel).value.0).None?
  {
    var r := Expand(IncludeOnce, loader, parse, job.location, source, {}, fuel);
    ExpandedHasNoInclude(IncludeOnce, loader, parse, job.location, source, {}, fuel, r);
  }

  /** An unreadable GL version fails the run with its message once the include and constant passes succeed. */
  lemma UnreadableVersionFails(job: Job, env: Environment, source: string, loader: Location -> string,
                               parse: string -> Option<Location>, fuel: nat)
    requires FindVersion(env.glVersion).None?
    requires Expand(IncludeOnce, loader, parse, job.location, source, {}, fuel).Ok?
    requires ConstantsPass(job.location, WithBuiltinConstants(job.constants),
                           Expand(IncludeOnce, loader, parse, job.location, source, {}, fuel).value.0, fuel).Ok?
    ensures Processed(job, env, source, loader, parse, fuel).Err?
    ensures Processed(job, env, source, loader, parse, fuel).error == Thrown("Could not parse OpenGL version")
  {
  }

  /** A failing include pass is the run's failure, whatever the later passes would do. */
  lemma IncludeFailureFirst(job: Job, env: Environment, source: string, loader: Location -> string,
                            parse: string -> Option<Location>, fuel: nat)
    requires Expand(IncludeOnce, loader, parse, job.location, source, {}, fuel).Err?
    ensures Processed(job, env, source, loader, parse, fuel).Err?
    ensures Processed(job, env, source, loader, parse, fuel).error
            == Expand(IncludeOnce, loader, parse, job.location, source, {}, fuel).error
  {
  }

  /**
   * A source with no '#' and no 's' passes the include and constant passes unchanged: only
   * the define block is put in before stripping.
   */
  lemma PlainSource(job: Job, env: Environment, source: string, loader: Location -> string,
                    parse: string -> Option<Location>, fuel: nat)
    requires '#' !in source && 's' !in source
    requires BuiltinDefines(job.shaderType, job.defines, env).Ok?
    ensures var defines := BuiltinDefines(job.shaderType, job.defines, env).value;
            var r := Processed(job, env, source, loader, parse, fuel);
            r.Ok? && r.value == Stripped(InsertDefines(defines, source))
  {
    WithoutDirectiveUnchanged(IncludeOnce, loader, parse, job.location, source, {}, fuel);
    ConstantsPassWithoutDeclaration(job.location, WithBuiltinConstants(job.constants), source, fuel);
  }
}
