/**
 * Include expansion of DefaultShaderPreProcessor: every `#include` directive is replaced by
 * the expanded text of the file it names, recursively, sharing one set of the locations
 * already included.
 *
 * As written, a directive whose target is already in the set is left in place and the search
 * starts over at the same directive, forever. The `IncludeOnce` policy removes such a
 * directive instead; the rest of the model uses that policy.
 */
module ShaderIncludes {
  import opened Wrappers
  import opened JavaLang
  import opened ShaderText
  import opened ShaderPatterns
  import opened ShaderPreProcessor

  /** What happens to a directive whose target was included before. */
  datatype IncludePolicy = AsWritten | IncludeOnce

  /** The HashSet<ResourceLocation> shared by all levels of one expansion. */
  class LocationSet {
    var locations: set<Location>

    constructor()
      ensures locations == {}
    {
      locations := {};
    }

    predicate Contains(l: Location)
      reads this
    {
      l in locations
    }

    method Add(l: Location)
      modifies this
      ensures locations == old(locations) + {l}
    {
      locations := locations + {l};
    }
  }

  /** The leftmost include directive of the buffer. */
  function FindInclude(buffer: string): (r: Option<Match>)
    ensures r.Some? ==> r.value.start < r.value.end <= |buffer|
                        && (4 in r.value.groups || 8 in r.value.groups)
  {
    FindIsLeftmost(IncludePattern, buffer, 0);
    Find(IncludePattern, buffer, 0)
  }

  /**
   * The location a directive names. A quoted path is relative to the directory of the
   * including file, in its namespace, and `new ResourceLocation` throws on a resolved path
   * with a character it does not accept (the quoted pattern lets upper case through); a
   * bracketed one is parsed as a whole location by `parse` (ResourceLocation.tryParse), and
   * one it rejects is malformed.
   */
  function IncludeTarget(location: Location, m: Match, parse: string -> Option<Location>): (r: Result<Location, Failure>)
    requires 4 in m.groups || 8 in m.groups
    ensures 8 in m.groups && r.Ok? ==> r.value.namespace == location.namespace && ValidPath(r.value.path)
    ensures 8 !in m.groups ==> (r.Err? <==> parse(m.groups[4]).None?)
  {
    if 8 in m.groups then
      match GetParentPath(location.path)
      case Err(e) => Err(Thrown(e))
      case Ok(parent) =>
        match ResolvePath(parent + "/" + m.groups[8])
        case Err(e) => Err(Thrown(e))
        case Ok(p) =>
          if ValidPath(p) then Ok(Location(location.namespace, p))
          else Err(Thrown("Non [a-z0-9/._-] character in path of location: " + location.namespace + ":" + p))
    else
      match parse(m.groups[4])
      case None => Err(Thrown("Malformed include location '" + m.groups[4] + "'"))
      case Some(l) => Ok(l)
  }

  /** What one round of the expansion does with the leftmost directive, if any. */
  datatype Round =
    | NoDirective
    | Fails(error: Failure)
    | Rescan(next: string)
    | Descend(target: Location, before: string, after: string)

  /**
   * One round of expandIncludesRecursively on `buffer`: no directive left; the directive's
   * location cannot be made; its target was included before (as written the search starts
   * over on the same text, with IncludeOnce the directive is removed); or its target is new
   * and its expansion goes between `before` and `after`.
   */
  function DirectiveRound(policy: IncludePolicy, parse: string -> Option<Location>, location: Location,
                          buffer: string, included: set<Location>): Round
  {
    match FindInclude(buffer)
    case None => NoDirective
    case Some(m) =>
      match IncludeTarget(location, m, parse)
      case Err(e) => Fails(e)
      case Ok(target) =>
        if target in included then
          Rescan(if policy == AsWritten then buffer else buffer[..m.start] + buffer[m.end..])
        else Descend(target, buffer[..m.start], buffer[m.end..])
  }

  function RoundsOf(policy: IncludePolicy, parse: string -> Option<Location>)
    : (Location, string, set<Location>) -> Round
  {
    (location, buffer, included) => DirectiveRound(policy, parse, location, buffer, included)
  }

  /**
   * Any expansion of this shape, with its rounds given by `round`: a new target is replaced
   * by its own expansion (against the same set) and then added to the set, and the search
   * starts over.
   */
  function ExpandBy(round: (Location, string, set<Location>) -> Round, loader: Location -> string,
                    location: Location, buffer: string, included: set<Location>, fuel: nat)
    : Result<(string, set<Location>), Failure>
    decreases fuel
  {
    match round(location, buffer, included)
    case NoDirective => Ok((buffer, included))
    case Fails(e) => if fuel == 0 then Err(OutOfFuel) else Err(e)
    case Rescan(next) => if fuel == 0 then Err(OutOfFuel) else ExpandBy(round, loader, location, next, included, fuel - 1)
    case Descend(target, before, after) =>
      if fuel == 0 then Err(OutOfFuel)
      else match ExpandBy(round, loader, target, loader(target), included, fuel - 1)
        case Err(e) => Err(e)
        case Ok(inner) => ExpandBy(round, loader, location, before + inner.0 + after, inner.1 + {target}, fuel - 1)
  }

  /**
   * expandIncludesRecursively: the expanded text and the set of included locations after it.
   * The leftmost directive is handled and the search starts over; a target not yet included
   * is replaced by its own expansion (against the same set) and then added to the set.
   */
  function Expand(policy: IncludePolicy, loader: Location -> string, parse: string -> Option<Location>,
                  location: Location, buffer: string, included: set<Location>, fuel: nat)
    : Result<(string, set<Location>), Failure>
  {
    ExpandBy(RoundsOf(policy, parse), loader, location, buffer, included, fuel)
  }

  /** The ways one round of Expand ends the expansion. */
  lemma ExpandStops(policy: IncludePolicy, loader: Location -> string, parse: string -> Option<Location>,
                    location: Location, s: string, included: set<Location>, fuel: nat,
                    goal: Result<(string, set<Location>), Failure>)
    requires Expand(policy, loader, parse, location, s, included, fuel) == goal
    ensures FindInclude(s).None? ==> goal.Ok? && goal.value == (s, included)
    ensures FindInclude(s).Some? && fuel == 0 ==> goal.Err? && goal.error == OutOfFuel
    ensures FindInclude(s).Some? && fuel > 0 && IncludeTarget(location, FindInclude(s).value, parse).Err? ==>
              goal.Err? && goal.error == IncludeTarget(location, FindInclude(s).value, parse).error
  {
  }

  /** One round on a directive whose target was included before: the search starts over. */
  lemma ExpandSkips(policy: IncludePolicy, loader: Location -> string, parse: string -> Option<Location>,
                    location: Location, s: string, m: Match, target: Location, included: set<Location>,
                    next: string, fuel: nat, goal: Result<(string, set<Location>), Failure>)
    requires FindInclude(s).Some? && FindInclude(s).value == m && fuel > 0
    requires IncludeTarget(location, m, parse).Ok? && IncludeTarget(location, m, parse).value == target
    requires target in included
    requires next == if policy == AsWritten then s else s[..m.start] + s[m.end..]
    requires Expand(policy, loader, parse, location, s, included, fuel) == goal
    ensures Expand(policy, loader, parse, location, next, included, fuel - 1) == goal
  {
  }

  /** One round on a directive whose target is new: its expansion is spliced in. */
  lemma ExpandDescends(policy: IncludePolicy, loader: Location -> string, parse: string -> Option<Location>,
                       location: Location, s: string, m: Match, target: Location, included: set<Location>,
                       fuel: nat, goal: Result<(string, set<Location>), Failure>)
    requires FindInclude(s).Some? && FindInclude(s).value == m && fuel > 0
    requires IncludeTarget(location, m, parse).Ok? && IncludeTarget(location, m, parse).value == target
    requires target !in included
    requires Expand(policy, loader, parse, location, s, included, fuel) == goal
    ensures var inner := Expand(policy, loader, parse, target, loader(target), included, fuel - 1);
            inner.Err? ==> goal.Err? && goal.error == inner.error
  {
  }

  /** After the target's expansion succeeds, the search starts over on the spliced text. */
  lemma ExpandSplices(policy: IncludePolicy, loader: Location -> string, parse: string -> Option<Location>,
                      location: Location, s: string, m: Match, target: Location, included: set<Location>,
                      text: string, inner: set<Location>, next: string, fuel: nat,
                      goal: Result<(string, set<Location>), Failure>)
    requires FindInclude(s).Some? && FindInclude(s).value == m && fuel > 0
    requires IncludeTarget(location, m, parse).Ok? && IncludeTarget(location, m, parse).value == target
    requires target !in included
    requires Expand(policy, loader, parse, location, s, included, fuel) == goal
    requires Expand(policy, loader, parse, target, loader(target), included, fuel - 1).Ok?
    requires Expand(policy, loader, parse, target, loader(target), included, fuel - 1).value == (text, inner)
    requires next == s[..m.start] + text + s[m.end..]
    ensures Expand(policy, loader, parse, location, next, inner + {target}, fuel - 1) == goal
  {
  }

  /**
   * expandIncludesRecursively as the loop processGreedy runs, recursing into each new target
   * with the shared set.
   */
  method ExpandIncludesRecursively(policy: IncludePolicy, location: Location, source: string,
                                   loader: Location -> string, parse: string -> Option<Location>,
                                   included: LocationSet, fuel: nat)
    returns (r: Result<string, Failure>)
    modifies included
    decreases fuel, 1
    ensures var spec := Expand(policy, loader, parse, location, source, old(included.locations), fuel);
            && r.Ok? == spec.Ok?
            && (r.Ok? ==> r.value == spec.value.0 && included.locations == spec.value.1)
            && (r.Err? ==> r.error == spec.error)
  {
    ghost var goal := Expand(policy, loader, parse, location, source, included.locations, fuel);
    var text := source;
    var rounds: nat := fuel;
    while true
      invariant rounds <= fuel
      invariant Expand(policy, loader, parse, location, text, included.locations, rounds) == goal
      decreases rounds
    {
      var done, result, next := IncludeRound(policy, location, text, loader, parse, included, rounds);
      if done {
        return result;
      }
      text := next;
      rounds := rounds - 1;
    }
  }

  /**
   * One round of processGreedy with the include pattern: either the pass ends here with
   * `result`, or the leftmost directive is handled and the rest of the pass runs on `next`.
   */
  method IncludeRound(policy: IncludePolicy, location: Location, text: string,
                      loader: Location -> string, parse: string -> Option<Location>,
                      included: LocationSet, rounds: nat)
    returns (done: bool, result: Result<string, Failure>, next: string)
    modifies included
    decreases rounds, 0
    ensures var spec := Expand(policy, loader, parse, location, text, old(included.locations), rounds);
            done ==> && result.Ok? == spec.Ok?
                     && (result.Ok? ==> result.value == spec.value.0 && included.locations == spec.value.1)
                     && (result.Err? ==> result.error == spec.error)
    ensures !done ==> rounds > 0 && Expand(policy, loader, parse, location, next, included.locations, rounds - 1)
                                    == Expand(policy, loader, parse, location, text, old(included.locations), rounds)
  {
    ghost var goal := Expand(policy, loader, parse, location, text, included.locations, rounds);
    next := text;
    var found := FindInclude(text);
    ExpandStops(policy, loader, parse, location, text, included.locations, rounds, goal);
    if found.None? {
      return true, Ok(text), next;
    }
    if rounds == 0 {
      return true, Err(OutOfFuel), next;
    }
    var target := IncludeTarget(location, found.value, parse);
    if target.Err? {
      return true, Err(target.error), next;
    }
    if included.Contains(target.value) {
      next := if policy == AsWritten then text else text[..found.value.start] + text[found.value.end..];
      ExpandSkips(policy, loader, parse, location, text, found.value, target.value, included.locations,
                  next, rounds, goal);
    } else {
      ghost var before := included.locations;
      ExpandDescends(policy, loader, parse, location, text, found.value, target.value, before, rounds, goal);
      var inner := ExpandIncludesRecursively(policy, target.value, loader(target.value), loader, parse,
                                             included, rounds - 1);
      if inner.Err? {
        return true, Err(inner.error), next;
      }
      next := text[..found.value.start] + inner.value + text[found.value.end..];
      ExpandSplices(policy, loader, parse, location, text, found.value, target.value, before,
                    inner.value, included.locations, next, rounds, goal);
      included.Add(target.value);
    }
    done, result := false, Ok(next);
  }

  /** processIncludes: the expansion starts with an empty set. */
  method ProcessIncludes(policy: IncludePolicy, location: Location, source: string,
                         loader: Location -> string, parse: string -> Option<Location>, fuel: nat)
    returns (r: Result<string, Failure>)
    ensures var spec := Expand(policy, loader, parse, location, source, {}, fuel);
            && r.Ok? == spec.Ok?
            && (r.Ok? ==> r.value == spec.value.0)
            && (r.Err? ==> r.error == spec.error)
  {
    var included := new LocationSet();
    r := ExpandIncludesRecursively(policy, location, source, loader, parse, included, fuel);
  }

  /**
   * One successful round: the pass goes on from `next` with the set `inc`, which is the old
   * set, or, when a new target was descended into, that target's expanded set plus the target.
   */
  lemma ExpandRound(policy: IncludePolicy, loader: Location -> string, parse: string -> Option<Location>,
                    location: Location, buffer: string, included: set<Location>, fuel: nat,
                    r: Result<(string, set<Location>), Failure>)
    returns (next: string, inc: set<Location>, descended: bool, target: Location, innerText: string,
             innerSet: set<Location>)
    requires Expand(policy, loader, parse, location, buffer, included, fuel) == r && r.Ok?
    requires FindInclude(buffer).Some?
    ensures fuel > 0
    ensures Expand(policy, loader, parse, location, next, inc, fuel - 1) == r
    ensures !descended ==> inc == included
    ensures descended ==> inc == innerSet + {target}
    ensures descended ==> Expand(policy, loader, parse, target, loader(target), included, fuel - 1) == Ok((innerText, innerSet))
  {
    ExpandStops(policy, loader, parse, location, buffer, included, fuel, r);
    var m := FindInclude(buffer).value;
    target := IncludeTarget(location, m, parse).value;
    if target in included {
      next := if policy == AsWritten then buffer else buffer[..m.start] + buffer[m.end..];
      ExpandSkips(policy, loader, parse, location, buffer, m, target, included, next, fuel, r);
      inc, descended, innerText, innerSet := included, false, "", {};
    } else {
      var inner := Expand(policy, loader, parse, target, loader(target), included, fuel - 1);
      ExpandDescends(policy, loader, parse, location, buffer, m, target, included, fuel, r);
      innerText, innerSet := inner.value.0, inner.value.1;
      next := buffer[..m.start] + innerText + buffer[m.end..];
      ExpandSplices(policy, loader, parse, location, buffer, m, target, included, innerText, innerSet,
                    next, fuel, r);
      inc, descended := innerSet + {target}, true;
    }
  }

  /** A successful expansion leaves no include directive behind. */
  lemma {:induction false} ExpandedHasNoInclude(policy: IncludePolicy, loader: Location -> string,
                                               parse: string -> Option<Location>, location: Location,
                                               buffer: string, included: set<Location>, fuel: nat,
                                               r: Result<(string, set<Location>), Failure>)
    requires Expand(policy, loader, parse, location, buffer, included, fuel) == r && r.Ok?
    ensures FindInclude(r.value.0).None?
    decreases fuel
  {
    ExpandStops(policy, loader, parse, location, buffer, included, fuel, r);
    if FindInclude(buffer).Some? {
      var next, inc, _, _, _, _ := ExpandRound(policy, loader, parse, location, buffer, included, fuel, r);
      ExpandedHasNoInclude(policy, loader, parse, location, next, inc, fuel - 1, r);
    }
  }

  /** Locations are only ever added to the shared set. */
  lemma ExpandKeepsIncluded(policy: IncludePolicy, loader: Location -> string,
                            parse: string -> Option<Location>, location: Location,
                            buffer: string, included: set<Location>, fuel: nat,
                            r: Result<(string, set<Location>), Failure>)
    requires Expand(policy, loader, parse, location, buffer, included, fuel) == r && r.Ok?
    ensures included <= r.value.1
  {
    ExpandByKeepsIncluded(RoundsOf(policy, parse), loader, location, buffer, included, fuel);
  }

  /** Whatever the rounds are, the expansion only ever adds to the set. */
  lemma {:induction false} ExpandByKeepsIncluded(round: (Location, string, set<Location>) -> Round,
                                                loader: Location -> string, location: Location,
                                                buffer: string, included: set<Location>, fuel: nat)
    requires ExpandBy(round, loader, location, buffer, included, fuel).Ok?
    ensures included <= ExpandBy(round, loader, location, buffer, included, fuel).value.1
    decreases fuel
  {
    match round(location, buffer, included)
    case NoDirective =>
    case Fails(e) =>
    case Rescan(next) =>
      ExpandByKeepsIncluded(round, loader, location, next, included, fuel - 1);
    case Descend(target, before, after) =>
      var inner := ExpandBy(round, loader, target, loader(target), included, fuel - 1);
      ExpandByKeepsIncluded(round, loader, target, loader(target), included, fuel - 1);
      ExpandByKeepsIncluded(round, loader, location, before + inner.value.0 + after, inner.value.1 + {target}, fuel - 1);
  }

  /** Text without a '#' comes back unchanged, with the set unchanged, whatever the bound. */
  lemma WithoutDirectiveUnchanged(policy: IncludePolicy, loader: Location -> string,
                                  parse: string -> Option<Location>, location: Location,
                                  buffer: string, included: set<Location>, fuel: nat)
    requires '#' !in buffer
    ensures Expand(policy, loader, parse, location, buffer, included, fuel).Ok?
    ensures Expand(policy, loader, parse, location, buffer, included, fuel).value == (buffer, included)
  {
    NoHashNoInclude(buffer);
    ExpandStops(policy, loader, parse, location, buffer, included, fuel, Expand(policy, loader, parse, location, buffer, included, fuel));
  }

  /**
   * As written, a leftmost directive whose target is already included is found again and
   * again: the expansion never ends, whatever the bound.
   */
  lemma {:induction false} AlreadyIncludedLoops(loader: Location -> string, parse: string -> Option<Location>,
                                               location: Location, buffer: string, included: set<Location>,
                                               fuel: nat)
    requires FindInclude(buffer).Some?
    requires IncludeTarget(location, FindInclude(buffer).value, parse).Ok?
    requires IncludeTarget(location, FindInclude(buffer).value, parse).value in included
    ensures Expand(AsWritten, loader, parse, location, buffer, included, fuel).Err?
    ensures Expand(AsWritten, loader, parse, location, buffer, included, fuel).error == OutOfFuel
    decreases fuel
  {
    if fuel > 0 {
      var m := FindInclude(buffer).value;
      ExpandSkips(AsWritten, loader, parse, location, buffer, m, IncludeTarget(location, m, parse).value,
                  included, buffer, fuel, Expand(AsWritten, loader, parse, location, buffer, included, fuel));
      AlreadyIncludedLoops(loader, parse, location, buffer, included, fuel - 1);
    }
  }

  /**
   * A bound that is enough stays enough: a result other than OutOfFuel is the result for every
   * larger bound too, so OutOfFuel under every bound is the expansion that never ends.
   */
  lemma ExpandFuelMonotone(policy: IncludePolicy, loader: Location -> string,
                           parse: string -> Option<Location>, location: Location,
                           buffer: string, included: set<Location>, fuel: nat, more: nat)
    requires fuel <= more
    requires Expand(policy, loader, parse, location, buffer, included, fuel) != Err(OutOfFuel)
    ensures Expand(policy, loader, parse, location, buffer, included, more)
            == Expand(policy, loader, parse, location, buffer, included, fuel)
  {
    ExpandByFuelMonotone(RoundsOf(policy, parse), loader, location, buffer, included, fuel, more);
  }

  /** Whatever the rounds are, a bound that is enough for the expansion stays enough. */
  lemma {:induction false} ExpandByFuelMonotone(round: (Location, string, set<Location>) -> Round,
                                               loader: Location -> string, location: Location,
                                               buffer: string, included: set<Location>, fuel: nat, more: nat)
    requires fuel <= more
    requires ExpandBy(round, loader, location, buffer, included, fuel) != Err(OutOfFuel)
    ensures ExpandBy(round, loader, location, buffer, included, more)
            == ExpandBy(round, loader, location, buffer, included, fuel)
    decreases fuel
  {
    match round(location, buffer, included)
    case NoDirective =>
    case Fails(e) =>
    case Rescan(next) =>
      if fuel > 0 {
        ExpandByFuelMonotone(round, loader, location, next, included, fuel - 1, more - 1);
      }
    case Descend(target, before, after) =>
      if fuel > 0 {
        var inner := ExpandBy(round, loader, target, loader(target), included, fuel - 1);
        ExpandByFuelMonotone(round, loader, target, loader(target), included, fuel - 1, more - 1);
        if inner.Ok? {
          ExpandByFuelMonotone(round, loader, location, before + inner.value.0 + after, inner.value.1 + {target},
                               fuel - 1, more - 1);
        }
      }
  }

  /**
   * Where the code as written ends other than by running out, it never met a directive whose
   * target was already included, so the include-once expansion ends the same way.
   */
  lemma AsWrittenResultAgrees(loader: Location -> string, parse: string -> Option<Location>,
                              location: Location, buffer: string, included: set<Location>, fuel: nat)
    requires Expand(AsWritten, loader, parse, location, buffer, included, fuel) != Err(OutOfFuel)
    ensures Expand(IncludeOnce, loader, parse, location, buffer, included, fuel)
            == Expand(AsWritten, loader, parse, location, buffer, included, fuel)
  {
    PoliciesDifferOnlyOnRescans(parse);
    ExpandByResultAgrees(RoundsOf(AsWritten, parse), RoundsOf(IncludeOnce, parse), loader, location, buffer,
                         included, fuel);
  }

  /** Every rescan of `round` starts over on the very same text. */
  ghost predicate RescansInPlace(round: (Location, string, set<Location>) -> Round)
  {
    forall l, b, inc :: round(l, b, inc).Rescan? ==> round(l, b, inc).next == b
  }

  /** `other` does what `round` does, except where `round` rescans. */
  ghost predicate AgreeOutsideRescans(round: (Location, string, set<Location>) -> Round,
                                other: (Location, string, set<Location>) -> Round)
  {
    forall l, b, inc :: !round(l, b, inc).Rescan? ==> other(l, b, inc) == round(l, b, inc)
  }

  /** The two policies differ only on a directive whose target was included before. */
  lemma PoliciesDifferOnlyOnRescans(parse: string -> Option<Location>)
    ensures RescansInPlace(RoundsOf(AsWritten, parse))
    ensures AgreeOutsideRescans(RoundsOf(AsWritten, parse), RoundsOf(IncludeOnce, parse))
  {
    forall l, b, inc
      ensures RoundsOf(AsWritten, parse)(l, b, inc) == DirectiveRound(AsWritten, parse, l, b, inc)
      ensures RoundsOf(IncludeOnce, parse)(l, b, inc) == DirectiveRound(IncludeOnce, parse, l, b, inc)
    {
    }
  }

  /** A round that rescans the same text, under any bound, runs out. */
  lemma {:induction false} InPlaceRescanLoops(round: (Location, string, set<Location>) -> Round,
                                             loader: Location -> string, location: Location,
                                             buffer: string, included: set<Location>, fuel: nat)
    requires round(location, buffer, included) == Rescan(buffer)
    ensures ExpandBy(round, loader, location, buffer, included, fuel) == Err(OutOfFuel)
    decreases fuel
  {
    if fuel > 0 {
      InPlaceRescanLoops(round, loader, location, buffer, included, fuel - 1);
    }
  }

  /**
   * When `round` rescans only in place, an expansion of it that does not run out never went
   * through a rescan, so any `other` that agrees with it outside rescans ends the same way.
   */
  lemma {:induction false} ExpandByResultAgrees(round: (Location, string, set<Location>) -> Round,
                                               other: (Location, string, set<Location>) -> Round,
                                               loader: Location -> string, location: Location,
                                               buffer: string, included: set<Location>, fuel: nat)
    requires RescansInPlace(round) && AgreeOutsideRescans(round, other)
    requires ExpandBy(round, loader, location, buffer, included, fuel) != Err(OutOfFuel)
    ensures ExpandBy(other, loader, location, buffer, included, fuel)
            == ExpandBy(round, loader, location, buffer, included, fuel)
    decreases fuel
  {
    match round(location, buffer, included)
    case NoDirective =>
    case Fails(e) =>
    case Rescan(next) =>
      InPlaceRescanLoops(round, loader, location, buffer, included, fuel);
    case Descend(target, before, after) =>
      if fuel > 0 {
        var inner := ExpandBy(round, loader, target, loader(target), included, fuel - 1);
        ExpandByResultAgrees(round, other, loader, target, loader(target), included, fuel - 1);
        if inner.Ok? {
          ExpandByResultAgrees(round, other, loader, location, before + inner.value.0 + after,
                               inner.value.1 + {target}, fuel - 1);
        }
      }
  }



  /** `#include "path"`. */
  function QuotedDirective(path: string): string
  {
    "#include \"" + path + "\""
  }

  /** No include directive starts where there is no '#'. */
  lemma NoHashBefore(s: string, n: nat)
    requires n <= |s| && '#' !in s[..n]
    ensures forall j :: 0 <= j < n ==> MatchPatternAt(IncludePattern, s, j).None?
  {
    forall j | 0 <= j < n
      ensures MatchPatternAt(IncludePattern, s, j).None?
    {
      assert s[..n][j] == s[j];
      if j + 8 <= |s| {
        assert s[j..j + 8][0] == s[j];
      }
    }
  }

  /** A quoted directive after text without '#' is the leftmost one, with its path as group 8. */
  lemma FirstQuotedInclude(pre: string, path: string, post: string)
    requires '#' !in pre
    requires path != [] && AllIn(IncludePath, path)
    ensures var s := pre + QuotedDirective(path) + post;
            FindInclude(s).Some? && FindInclude(s).value == Match(|pre|, |pre| + |path| + 11, map[8 := path])
  {
    var s := pre + QuotedDirective(path) + post;
    QuotedIncludeLayout(pre, path, post);
    RecognisesQuotedInclude(s, |pre|, path);
    assert s[..|pre|] == pre;
    NoHashBefore(s, |pre|);
    FindFirst(IncludePattern, s, |pre|);
  }

  /**
   * A quoted path names a file beside the including one: in the same namespace, in the
   * directory of the including file's path.
   */
  lemma QuotedIncludeTarget(namespace: string, dir: string, name: string, file: string, m: Match,
                            parse: string -> Option<Location>)
    requires dir != [] && '/' !in dir && dir != ".." && ValidPath(dir)
    requires '/' !in name
    requires file != [] && '/' !in file && file != ".." && ValidPath(file)
    requires m.groups == map[8 := file]
    ensures IncludeTarget(Location(namespace, dir + "/" + name), m, parse).Ok?
    ensures IncludeTarget(Location(namespace, dir + "/" + name), m, parse).value == Location(namespace, dir + "/" + file)
  {
    ParentOfChild(dir, name);
    ResolvePlainPath(dir, file);
    ValidPathJoin(dir, file);
  }

  lemma ValidPathJoin(dir: string, file: string)
    requires ValidPath(dir) && ValidPath(file)
    ensures ValidPath(dir + "/" + file)
  {
    var p := dir + "/" + file;
    forall i | 0 <= i < |p|
      ensures IsPathChar(p[i])
    {
      if i < |dir| {
        assert p[i] == dir[i];
      } else if i > |dir| {
        assert p[i] == file[i - |dir| - 1];
      }
    }
  }

  /**
   * A quoted path with a character ResourceLocation does not accept (an upper-case letter,
   * say, which the pattern lets through) makes `new ResourceLocation` throw.
   */
  lemma QuotedPathRejected(namespace: string, dir: string, name: string, file: string, m: Match,
                           parse: string -> Option<Location>)
    requires dir != [] && '/' !in dir && dir != ".."
    requires '/' !in name
    requires file != [] && '/' !in file && file != ".." && !ValidPath(file)
    requires m.groups == map[8 := file]
    ensures IncludeTarget(Location(namespace, dir + "/" + name), m, parse)
            == Err(Thrown("Non [a-z0-9/._-] character in path of location: " + namespace + ":" + (dir + "/" + file)))
  {
    ParentOfChild(dir, name);
    ResolvePlainPath(dir, file);
    InvalidPathJoin(dir, file);
  }

  lemma InvalidPathJoin(dir: string, file: string)
    requires !ValidPath(file)
    ensures !ValidPath(dir + "/" + file)
  {
    var i :| 0 <= i < |file| && !IsPathChar(file[i]);
    assert (dir + "/" + file)[|dir| + 1 + i] == file[i];
  }

  /**
   * A directive whose target is new and whose text has no directive, followed (once that text
   * is spliced in) by a directive naming the same target: as written, no bound is enough.
   */
  lemma RepeatedTargetLoops(loader: Location -> string,
                            parse: string -> Option<Location>, location: Location,
                            s: string, m: Match, target: Location, next: string, fuel: nat)
    requires FindInclude(s).Some? && FindInclude(s).value == m
    requires IncludeTarget(location, m, parse).Ok? && IncludeTarget(location, m, parse).value == target
    requires FindInclude(loader(target)).None?
    requires next == s[..m.start] + loader(target) + s[m.end..]
    requires FindInclude(next).Some?
    requires IncludeTarget(location, FindInclude(next).value, parse).Ok?
    requires IncludeTarget(location, FindInclude(next).value, parse).value == target
    ensures Expand(AsWritten, loader, parse, location, s, {}, fuel) == Err(OutOfFuel)
  {
    var goal := Expand(AsWritten, loader, parse, location, s, {}, fuel);
    if fuel > 0 {
      var inner := Expand(AsWritten, loader, parse, target, loader(target), {}, fuel - 1);
      ExpandStops(AsWritten, loader, parse, target, loader(target), {}, fuel - 1, inner);
      ExpandSplices(AsWritten, loader, parse, location, s, m, target, {}, loader(target), {}, next, fuel, goal);
      AlreadyIncludedLoops(loader, parse, location, next, {} + {target}, fuel - 1);
    } else {
      ExpandStops(AsWritten, loader, parse, location, s, {}, fuel, goal);
    }
  }

  /** The same text with the repeated directive removed: the target's text comes in once. */
  lemma RepeatedTargetRemoved(loader: Location -> string,
                              parse: string -> Option<Location>, location: Location,
                              s: string, m: Match, target: Location, next: string, m2: Match, last: string,
                              fuel: nat)
    requires FindInclude(s).Some? && FindInclude(s).value == m
    requires IncludeTarget(location, m, parse).Ok? && IncludeTarget(location, m, parse).value == target
    requires FindInclude(loader(target)).None?
    requires next == s[..m.start] + loader(target) + s[m.end..]
    requires FindInclude(next).Some? && FindInclude(next).value == m2
    requires IncludeTarget(location, m2, parse).Ok? && IncludeTarget(location, m2, parse).value == target
    requires last == next[..m2.start] + next[m2.end..] && FindInclude(last).None?
    requires fuel >= 2
    ensures Expand(IncludeOnce, loader, parse, location, s, {}, fuel).Ok?
    ensures Expand(IncludeOnce, loader, parse, location, s, {}, fuel).value == (last, {target})
  {
    var goal := Expand(IncludeOnce, loader, parse, location, s, {}, fuel);
    ExpandStops(IncludeOnce, loader, parse, target, loader(target), {}, fuel - 1, Expand(IncludeOnce, loader, parse, target, loader(target), {}, fuel - 1));
    ExpandSplices(IncludeOnce, loader, parse, location, s, m, target, {}, loader(target), {}, next, fuel, goal);
    assert {} + {target} == {target};
    ExpandSkips(IncludeOnce, loader, parse, location, next, m2, target, {target}, last, fuel - 1, goal);
    ExpandStops(IncludeOnce, loader, parse, location, last, {target}, fuel - 2, Expand(IncludeOnce, loader, parse, location, last, {target}, fuel - 2));
  }

  /**
   * Where the directives of `#include "file"`, a line break and `#include "file"` are, before
   * and after the first one is replaced by text without '#'.
   */
  lemma RepeatedDirective(file: string, text: string)
    requires file != [] && AllIn(IncludePath, file)
    requires '#' !in text
    ensures var d := QuotedDirective(file);
            var s := d + "\n" + d;
            var next := text + "\n" + d;
            && FindInclude(s).Some? && FindInclude(s).value == Match(0, |d|, map[8 := file])
            && next == s[..0] + text + s[|d|..]
            && FindInclude(next).Some? && FindInclude(next).value == Match(|text| + 1, |next|, map[8 := file])
            && next[..|text| + 1] + next[|next|..] == text + "\n"
            && FindInclude(text).None? && FindInclude(text + "\n").None?
  {
    var d := QuotedDirective(file);
    var s := d + "\n" + d;
    assert |d| == |file| + 11;
    assert s == [] + d + ("\n" + d);
    FirstQuotedInclude([], file, "\n" + d);
    assert s[|d|..] == "\n" + d;
    var next := text + "\n" + d;
    assert '#' !in text + "\n";
    assert next == (text + "\n") + d + [];
    FirstQuotedInclude(text + "\n", file, []);
    assert next[..|text| + 1] == text + "\n";
    NoHashNoInclude(text);
    NoHashNoInclude(text + "\n");
  }

  /**
   * Two directives naming the same file, as written: the first is expanded, the second is
   * then found again and again, so no bound is ever enough.
   */
  lemma DuplicateIncludeAsWritten(namespace: string, dir: string, name: string, file: string,
                                  loader: Location -> string, parse: string -> Option<Location>, fuel: nat)
    requires dir != [] && '/' !in dir && dir != ".." && ValidPath(dir)
    requires '/' !in name
    requires file != [] && '/' !in file && file != ".." && ValidPath(file) && AllIn(IncludePath, file)
    requires '#' !in loader(Location(namespace, dir + "/" + file))
    ensures var s := QuotedDirective(file) + "\n" + QuotedDirective(file);
            var r := Expand(AsWritten, loader, parse, Location(namespace, dir + "/" + name), s, {}, fuel);
            r.Err? && r.error == OutOfFuel
  {
    var target := Location(namespace, dir + "/" + file);
    var d := QuotedDirective(file);
    var s := d + "\n" + d;
    var text := loader(target);
    RepeatedDirective(file, text);
    var m := FindInclude(s).value;
    var next := text + "\n" + d;
    QuotedIncludeTarget(namespace, dir, name, file, m, parse);
    QuotedIncludeTarget(namespace, dir, name, file, FindInclude(next).value, parse);
    RepeatedTargetLoops(loader, parse, Location(namespace, dir + "/" + name), s, m, target, next, fuel);
  }

  /**
   * The same two directives with the second one removed: the file's text comes in once,
   * followed by the line break between the directives.
   */
  lemma DuplicateIncludeOnce(namespace: string, dir: string, name: string, file: string,
                             loader: Location -> string, parse: string -> Option<Location>, fuel: nat)
    requires dir != [] && '/' !in dir && dir != ".." && ValidPath(dir)
    requires '/' !in name
    requires file != [] && '/' !in file && file != ".." && ValidPath(file) && AllIn(IncludePath, file)
    requires '#' !in loader(Location(namespace, dir + "/" + file))
    requires fuel >= 2
    ensures var s := QuotedDirective(file) + "\n" + QuotedDirective(file);
            var r := Expand(IncludeOnce, loader, parse, Location(namespace, dir + "/" + name), s, {}, fuel);
            var target := Location(namespace, dir + "/" + file);
            r.Ok? && r.value.0 == loader(target) + "\n" && r.value.1 == {target}
  {
    var target := Location(namespace, dir + "/" + file);
    var d := QuotedDirective(file);
    var s := d + "\n" + d;
    var text := loader(target);
    RepeatedDirective(file, text);
    var m := FindInclude(s).value;
    var next := text + "\n" + d;
    var m2 := FindInclude(next).value;
    QuotedIncludeTarget(namespace, dir, name, file, m, parse);
    QuotedIncludeTarget(namespace, dir, name, file, m2, parse);
    RepeatedTargetRemoved(loader, parse, Location(namespace, dir + "/" + name), s, m, target, next, m2,
                          text + "\n", fuel);
  }
}
