/** The `loadworld` command: it reads a world argument (optionally carrying a
    dimension suffix) and an optional dimension argument, works out which world
    and dimension are meant, asks the server's world manager whether that world
    exists and is already loaded, loads it if not, and tells the caller what
    happened in exactly one notice. */
module LoadWorld {
  import opened JavaText
  import opened WorldSuffix

  /** `None` stands for Java's null. */
  datatype Option<T> = None | Some(value: T)

  /** A dimension of a world as the command sees it. `name` is what
      DimensionType.getName() reports; `id` mirrors getId(), which the command
      never reads, and only keeps apart dimensions that share a name. */
  datatype DimensionType = DimensionType(id: int, name: string)

  /** The static lookups DimensionType.fromName and DimensionType.fromId, whose
      code is not part of this model; each may answer null. */
  datatype DimensionLookup = DimensionLookup(
    fromName: string -> Option<DimensionType>,
    fromId: int -> Option<DimensionType>)

  /** The five notices the command can send to its caller. */
  datatype Notice =
    | WorldLoaded
    | AlreadyLoaded
    | DoesNotExist(argument: string)
    | NoSuchDimension
    | FailedToLoad(argument: string)

  /** `text` holds `arg` between apostrophes, starting at index `q`. */
  predicate QuotedAt(text: string, arg: string, q: int) {
    1 <= q && q + |arg| < |text| &&
    text[q - 1] == '\'' && text[q..q + |arg|] == arg && text[q + |arg|] == '\''
  }

  /** The exact text of each notice. A notice about an argument quotes that
      argument between apostrophes; the other three quote nothing. */
  function Text(n: Notice): (r: string)
    ensures n.DoesNotExist? || n.FailedToLoad? ==>
      exists q :: QuotedAt(r, n.argument, q)
    ensures !(n.DoesNotExist? || n.FailedToLoad?) ==> '\'' !in r
  {
    match n
    case WorldLoaded => "World Loaded!"
    case AlreadyLoaded => "World was already loaded..."
    case DoesNotExist(arg) =>
      var r := "World '" + arg + "' does not exist...";
      assert r[7..7 + |arg|] == arg && QuotedAt(r, arg, 7);
      r
    case NoSuchDimension => "Dimension type is non-existant"
    case FailedToLoad(arg) =>
      var r := "Failed to load '" + arg + "'. See console for error.";
      assert r[16..16 + |arg|] == arg && QuotedAt(r, arg, 16);
      r
  }

  /** The caller can tell from the text alone which notice it received, and
      about which argument. */
  lemma TextInjective(a: Notice, b: Notice)
    requires Text(a) == Text(b)
    ensures a == b
  {
    var t := Text(a);
    if a.DoesNotExist? || b.DoesNotExist? {
      assert t[0] == 'W' && t[6] == '\'';
      if a.DoesNotExist? && b.DoesNotExist? {
        assert |a.argument| == |b.argument|;
        assert a.argument == t[7..7 + |a.argument|] == b.argument;
      }
    } else if a.FailedToLoad? || b.FailedToLoad? {
      assert t[0] == 'F';
      if a.FailedToLoad? && b.FailedToLoad? {
        assert |a.argument| == |b.argument|;
        assert a.argument == t[16..16 + |a.argument|] == b.argument;
      }
    }
  }

  /** How the command resolves its arguments before consulting the world
      manager: the world name handed to the manager, the fully-qualified name
      whose existence is checked, and the dimension (null when none was found);
      or the NullPointerException that `type.getName()` raises when the
      second-argument lookup found nothing. */
  datatype Resolution =
    | Resolved(worldName: string, fqName: string, dimension: Option<DimensionType>)
    | NullDimension

  /** The second-argument lookup: the decimal rendering of a value 0..9 is a
      dimension id, anything else a dimension name, upper-cased. */
  function SecondArgumentDimension(dims: DimensionLookup, arg: string): (r: Option<DimensionType>)
    ensures forall n :: 0 <= n <= 9 && arg == [DigitChar(n)] ==> r == dims.fromId(n)
    ensures (forall n :: 0 <= n <= 9 ==> arg != [DigitChar(n)]) ==> r == dims.fromName(ToUpperCase(arg))
  {
    if IsSingleDigit(arg) then dims.fromId(ParseDigit(arg)) else dims.fromName(ToUpperCase(arg))
  }

  /** Argument resolution. The world name is always a prefix of the first argument; a
      suffixed argument keeps its whole text as the name whose existence is
      checked; a second argument names the world `<first>_<dimension name>`,
      or fails when its dimension is unknown; otherwise there is no dimension. */
  function Resolve(dims: DimensionLookup, parameters: seq<string>): (r: Resolution)
    requires |parameters| >= 1
    ensures r.Resolved? ==> r.worldName <= parameters[0]
    ensures r.NullDimension? <==>
      !MatchesWorldSuffix(parameters[0]) && |parameters| > 1 &&
      SecondArgumentDimension(dims, parameters[1]).None?
    ensures MatchesWorldSuffix(parameters[0]) ==>
      var split := SplitWorldArgument(parameters[0]);
      r == Resolved(split.worldName, parameters[0], dims.fromName(split.dimension)) &&
      r.worldName + "_" + split.dimension == r.fqName
    ensures !MatchesWorldSuffix(parameters[0]) && |parameters| > 1 && r.Resolved? ==>
      r.worldName == parameters[0] &&
      r.dimension == SecondArgumentDimension(dims, parameters[1]) && r.dimension.Some? &&
      r.fqName == r.worldName + "_" + r.dimension.value.name
    ensures !MatchesWorldSuffix(parameters[0]) && |parameters| == 1 ==>
      r == Resolved(parameters[0], parameters[0], None)
  {
    var arg := parameters[0];
    if MatchesWorldSuffix(arg) then
      var split := SplitWorldArgument(arg);
      Resolved(split.worldName, arg, dims.fromName(split.dimension))
    else if |parameters| > 1 then
      match SecondArgumentDimension(dims, parameters[1])
      case None => NullDimension
      case Some(t) => Resolved(arg, arg + "_" + t.name, Some(t))
    else
      Resolved(arg, arg, None)
  }

  /** What one run of the command does: the notice it sends and the world it
      loads, if any. */
  datatype Effect = Effect(notice: Notice, load: Option<(string, DimensionType)>)

  /** The worlds an effect adds to the loaded set. */
  function Loads(e: Effect): set<(string, DimensionType)> {
    if e.load.Some? then {e.load.value} else {}
  }

  /** The decision tree, for a world manager whose existing worlds are `existing` (by
      fully-qualified name) and whose loaded worlds are `loaded`. Each notice
      names exactly one situation, a world is loaded exactly when the notice is
      "World Loaded!", and what is loaded is the stripped world name with the
      resolved dimension. */
  function Decide(dims: DimensionLookup, parameters: seq<string>,
                  existing: set<string>, loaded: set<(string, DimensionType)>): (e: Effect)
    requires |parameters| >= 1
    ensures e.load.Some? <==> e.notice == WorldLoaded
    ensures var r := Resolve(dims, parameters);
      && (e.notice == FailedToLoad(parameters[0]) <==> r.NullDimension?)
      && (e.notice == NoSuchDimension <==> r.Resolved? && r.dimension.None?)
      && (e.notice == DoesNotExist(parameters[0]) <==>
            r.Resolved? && r.dimension.Some? && r.fqName !in existing)
      && (e.notice == AlreadyLoaded <==>
            r.Resolved? && r.dimension.Some? && r.fqName in existing &&
            (r.worldName, r.dimension.value) in loaded)
      && (e.notice == WorldLoaded <==>
            r.Resolved? && r.dimension.Some? && r.fqName in existing &&
            (r.worldName, r.dimension.value) !in loaded)
      && (e.load.Some? ==> e.load.value == (r.worldName, r.dimension.value))
    ensures e.notice in {WorldLoaded, AlreadyLoaded, DoesNotExist(parameters[0]),
                         NoSuchDimension, FailedToLoad(parameters[0])}
  {
    match Resolve(dims, parameters)
    case NullDimension => Effect(FailedToLoad(parameters[0]), None)
    case Resolved(worldName, fqName, dimension) =>
      match dimension
      case None => Effect(NoSuchDimension, None)
      case Some(t) =>
        if fqName !in existing then Effect(DoesNotExist(parameters[0]), None)
        else if (worldName, t) in loaded then Effect(AlreadyLoaded, None)
        else Effect(WorldLoaded, Some((worldName, t)))
  }

  /** With one argument that carries no dimension suffix the command can only
      report that there is no such dimension, whatever the server holds. */
  lemma UnsuffixedSingleArgument(dims: DimensionLookup, arg: string,
                                 existing: set<string>, loaded: set<(string, DimensionType)>)
    requires !MatchesWorldSuffix(arg)
    ensures Decide(dims, [arg], existing, loaded) == Effect(NoSuchDimension, None)
  {
  }

  /** A suffixed first argument decides everything: any further argument is ignored. */
  lemma SuffixIgnoresLaterArguments(dims: DimensionLookup, parameters: seq<string>,
                                    existing: set<string>, loaded: set<(string, DimensionType)>)
    requires |parameters| >= 1 && MatchesWorldSuffix(parameters[0])
    ensures Decide(dims, parameters, existing, loaded) == Decide(dims, [parameters[0]], existing, loaded)
  {
  }

  /** For a suffixed argument whose dimension token is known, existence is
      checked on the unsplit argument, while loading and the loaded check use
      the name before the last underscore. */
  lemma SuffixedArgumentNames(dims: DimensionLookup, arg: string,
                              existing: set<string>, loaded: set<(string, DimensionType)>)
    requires MatchesWorldSuffix(arg)
    requires dims.fromName(SplitWorldArgument(arg).dimension).Some?
    ensures var e := Decide(dims, [arg], existing, loaded);
      var t := dims.fromName(SplitWorldArgument(arg).dimension).value;
      var w := SplitWorldArgument(arg).worldName;
      && (e.notice == DoesNotExist(arg) <==> arg !in existing)
      && (e.load.Some? <==> arg in existing && (w, t) !in loaded)
      && (e.load.Some? ==> e.load.value == (w, t) && w != arg)
  {
  }

  /** A second argument that is a single digit is looked up by id, anything else
      by its upper-cased name; when found, the world checked for existence is
      `<first>_<dimension name>` and the world loaded is the first argument. */
  lemma SecondArgumentNames(dims: DimensionLookup, arg: string, dim: string,
                            existing: set<string>, loaded: set<(string, DimensionType)>)
    requires !MatchesWorldSuffix(arg)
    requires SecondArgumentDimension(dims, dim).Some?
    ensures var t := SecondArgumentDimension(dims, dim).value;
      && (IsSingleDigit(dim) ==> dims.fromId(ParseDigit(dim)) == Some(t))
      && (!IsSingleDigit(dim) ==> dims.fromName(ToUpperCase(dim)) == Some(t))
      && var e := Decide(dims, [arg, dim], existing, loaded);
      && (e.notice == DoesNotExist(arg) <==> arg + "_" + t.name !in existing)
      && (e.load.Some? <==> arg + "_" + t.name in existing && (arg, t) !in loaded)
      && (e.load.Some? ==> e.load.value == (arg, t))
  {
  }

  /** A second argument naming no dimension makes `type.getName()` throw, and the
      only effect is the failure notice. */
  lemma UnknownSecondArgumentFails(dims: DimensionLookup, parameters: seq<string>,
                                   existing: set<string>, loaded: set<(string, DimensionType)>)
    requires |parameters| >= 2 && !MatchesWorldSuffix(parameters[0])
    requires SecondArgumentDimension(dims, parameters[1]).None?
    ensures Decide(dims, parameters, existing, loaded) == Effect(FailedToLoad(parameters[0]), None)
  {
  }

  /** Running the command again after it loaded a world reports that the world
      was already loaded and loads nothing. */
  lemma RepeatReportsAlreadyLoaded(dims: DimensionLookup, parameters: seq<string>,
                                   existing: set<string>, loaded: set<(string, DimensionType)>)
    requires |parameters| >= 1
    requires Decide(dims, parameters, existing, loaded).load.Some?
    ensures var again := Decide(dims, parameters, existing, loaded + Loads(Decide(dims, parameters, existing, loaded)));
      again == Effect(AlreadyLoaded, None)
  {
  }

  /** The server's world manager, reduced to what the command asks of it: the
      fully-qualified names of worlds that exist, and the (name, dimension)
      pairs that are loaded. */
  class WorldManager {
    var existing: set<string>
    var loaded: set<(string, DimensionType)>

    constructor (existing: set<string>, loaded: set<(string, DimensionType)>)
      ensures this.existing == existing && this.loaded == loaded
    {
      this.existing := existing;
      this.loaded := loaded;
    }

    /** Whether a world exists is asked by its fully-qualified name. */
    method WorldExists(fqName: string) returns (b: bool)
      ensures b <==> fqName in existing
    {
      b := fqName in existing;
    }

    /** Whether a world is loaded is asked by its plain name and dimension. */
    method WorldIsLoaded(name: string, t: DimensionType) returns (b: bool)
      ensures b <==> (name, t) in loaded
    {
      b := (name, t) in loaded;
    }

    /** Loading marks the world as loaded and changes nothing else the command sees. */
    method LoadWorld(name: string, t: DimensionType)
      modifies this
      ensures loaded == old(loaded) + {(name, t)}
      ensures existing == old(existing)
    {
      loaded := loaded + {(name, t)};
    }
  }

  /** Whoever issued the command, reduced to the notices it has received. */
  class MessageReceiver {
    var notices: seq<string>

    constructor ()
      ensures notices == []
    {
      notices := [];
    }

    method Notice(message: string)
      modifies this
      ensures notices == old(notices) + [message]
    {
      notices := notices + [message];
    }
  }

  /** The command object. Its only field is one regex matcher for `.+_\w+`,
      created over the empty input and shared by every run; each run resets it
      to the world argument, so its input is the only state it carries. */
  class LoadWorldCommand {
    var matcherInput: string

    constructor ()
      ensures matcherInput == ""
    {
      matcherInput := "";
    }

    /** One run of the command: the caller receives exactly the one notice that
        `Decide` names, the world manager's loaded set grows by exactly what
        `Decide` loads, the shared matcher is left over the first argument, and
        nothing else changes. */
    method Execute(caller: MessageReceiver, parameters: seq<string>,
                   dims: DimensionLookup, manage: WorldManager)
      requires |parameters| >= 1
      modifies this, caller, manage
      ensures matcherInput == parameters[0]
      ensures var e := Decide(dims, parameters, old(manage.existing), old(manage.loaded));
        && caller.notices == old(caller.notices) + [Text(e.notice)]
        && manage.loaded == old(manage.loaded) + Loads(e)
        && manage.existing == old(manage.existing)
    {
      var worldName := parameters[0];
      var fqName := parameters[0];
      var dimensionType: Option<DimensionType> := None;

      matcherInput := worldName;
      if MatchesWorldSuffix(matcherInput) {
        var split := SplitWorldArgument(worldName);
        worldName := split.worldName;
        dimensionType := dims.fromName(split.dimension);
      } else if |parameters| > 1 {
        if IsSingleDigit(parameters[1]) {
          dimensionType := dims.fromId(ParseDigit(parameters[1]));
        } else {
          dimensionType := dims.fromName(ToUpperCase(parameters[1]));
        }
        if dimensionType.None? {
          // type.getName() dereferences null; the catch block reports it.
          caller.Notice(Text(FailedToLoad(parameters[0])));
          return;
        }
        fqName := worldName + "_" + dimensionType.value.name;
      }

      if dimensionType.Some? {
        var worldExists := manage.WorldExists(fqName);
        if worldExists {
          var isLoaded := manage.WorldIsLoaded(worldName, dimensionType.value);
          if !isLoaded {
            manage.LoadWorld(worldName, dimensionType.value);
            caller.Notice(Text(WorldLoaded));
          } else {
            caller.Notice(Text(AlreadyLoaded));
          }
        } else {
          caller.Notice(Text(DoesNotExist(parameters[0])));
        }
      } else {
        caller.Notice(Text(NoSuchDimension));
      }
    }
  }
}
