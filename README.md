# LoadWorldCommand in Dafny

This project models the `loadworld` command of the CanaryMod library
(`LoadWorldCommand.execute`). A player or the console gives the command a world
argument and, optionally, a dimension argument. The command then works out
which world and which dimension are meant. It asks the server's world manager
whether the world exists and whether it is already loaded, loads it if not,
and sends the caller exactly one notice.

The model has three modules:

- `JavaText` (java_text.dfy) covers the small parts of the Java runtime that
  the command observes. These are the regex character classes `\w`, `\d` and
  the line terminators that `.` refuses, `String.lastIndexOf(char)`,
  `String.toUpperCase()` on ASCII letters, and `Integer.parseInt` on one digit.
- `WorldSuffix` (world_suffix.dfy) covers the suffixed world argument. The
  pattern `.+_\w+`, as `Matcher.matches()` applies it, becomes the predicate
  `MatchesWorldSuffix`: some underscore at index 1 or later has a non-empty,
  line-terminator-free prefix and a non-empty tail of word characters.
  `SplitWorldArgument` cuts at the last underscore, and lemmas prove the
  round trip and the uniqueness of that cut. Because `\w` contains `_`, the
  argument `a_b_` matches, and its dimension token is the empty string.
- `LoadWorld` (load_world.dfy) covers the command itself. `Resolve` states
  how the arguments become a world name, a fully-qualified name and an
  optional dimension. `Decide` states which notice is sent and which world is
  loaded. `LoadWorldCommand.Execute` is the imperative method. It reassigns
  `worldName`, `fqName` and the dimension step by step as the source does,
  calls the world manager, and appends to the caller's notice log. Its
  postcondition ties the new state to `Decide`.

Some consequences of the code that the lemmas make explicit:

- For a suffixed argument, existence is checked on the whole argument, e.g.
  `nether_world_NETHER`. The loaded check and the load itself use the name
  before the last underscore, e.g. `nether_world`.
- For a suffixed argument, the dimension token is looked up as written, not
  upper-cased. Any second argument is then ignored.
- A second argument names the world `<first>_<getName()>`. A second argument
  that names no dimension reaches `type.getName()` on null. The catch block
  turns that into the "Failed to load" notice, with no other effect.

Collaborators whose code is not part of this model are parameters:

- `DimensionType.fromName` and `DimensionType.fromId` are the function-valued
  fields of `DimensionLookup`. `None` stands for null.
- The world manager returned by `Canary.getServer().getWorldManager()` is a
  `WorldManager` object. It holds a set of existing fully-qualified names and
  a set of loaded (name, dimension) pairs, and `loadWorld` adds to the loaded
  set.
- `MessageReceiver.notice` appends the notice text to a log.

## Model

| member | source | states |
|---|---|---|
| `JavaText.LastIndexOf` | src/main/java/net/canarymod/commandsys/commands/world/LoadWorldCommand.java:28-29 | the result is -1 or an index holding the character, and no later index holds it |
| `JavaText.LastIndexOfIsLast` | src/main/java/net/canarymod/commandsys/commands/world/LoadWorldCommand.java:28-29 | any index holding the character with none after it is the index `lastIndexOf` returns |
| `JavaText.ToUpperCase` | src/main/java/net/canarymod/commandsys/commands/world/LoadWorldCommand.java:37 | the length is kept, each character is upper-cased in place, and no ASCII lower-case letter remains |
| `JavaText.IsSingleDigit` | src/main/java/net/canarymod/commandsys/commands/world/LoadWorldCommand.java:33 | `matches("\\d")` holds exactly of the one-character decimal rendering of a value 0..9 |
| `JavaText.ParseDigit` | src/main/java/net/canarymod/commandsys/commands/world/LoadWorldCommand.java:33-34 | a string that `\d` matches parses to a value 0..9 whose digit character is that string |
| `WorldSuffix.MatchesWorldSuffix` | src/main/java/net/canarymod/commandsys/commands/world/LoadWorldCommand.java:18-27 | whole-string membership in `.+_\w+`: some underscore at index 1 or later has a prefix free of Java's line terminators and a non-empty tail of `[A-Za-z0-9_]`; a matching argument is at least three characters long, has no line terminator and has an underscore strictly inside it |
| `WorldSuffix.SplitWorldArgument` | src/main/java/net/canarymod/commandsys/commands/world/LoadWorldCommand.java:27-29 | world name + "_" + dimension token equals the argument, the token has no underscore, and the world name is non-empty |
| `WorldSuffix.SplitUnique` | src/main/java/net/canarymod/commandsys/commands/world/LoadWorldCommand.java:27-29 | any way of writing a matching argument as name + "_" + underscore-free token is the split the command makes |
| `WorldSuffix.JoinThenSplit` | src/main/java/net/canarymod/commandsys/commands/world/LoadWorldCommand.java:18-29 | a valid world name joined to a non-empty, underscore-free word token matches the pattern and splits back into both parts |
| `WorldSuffix.AppendUnderscore` | src/main/java/net/canarymod/commandsys/commands/world/LoadWorldCommand.java:18-28 | appending "_" to a matching argument keeps the match and gives an empty dimension token |
| `WorldSuffix.NetherWorldExample` | src/main/java/net/canarymod/commandsys/commands/world/LoadWorldCommand.java:27-29 | `nether_world_NETHER` matches and splits into `nether_world` and `NETHER` |
| `WorldSuffix.TrailingUnderscoreExample` | src/main/java/net/canarymod/commandsys/commands/world/LoadWorldCommand.java:18-28 | `a_b_` matches and splits into `a_b` and the empty token |
| `LoadWorld.TextInjective` | src/main/java/net/canarymod/commandsys/commands/world/LoadWorldCommand.java:46-61 | distinct notices have distinct texts, so the text identifies both the outcome and the argument it names |
| `LoadWorld.Text` | src/main/java/net/canarymod/commandsys/commands/world/LoadWorldCommand.java:46-61 | the five notice texts; a notice about an argument quotes it between apostrophes and the other three quote nothing |
| `LoadWorld.SecondArgumentDimension` | src/main/java/net/canarymod/commandsys/commands/world/LoadWorldCommand.java:33-38 | the decimal rendering of a value 0..9 is looked up with `fromId` of that value; anything else with `fromName` of its upper-cased text |
| `LoadWorld.Resolve` | src/main/java/net/canarymod/commandsys/commands/world/LoadWorldCommand.java:23-40 | the world name is a prefix of the first argument; a suffixed argument is its own fully-qualified name; a second argument gives `<first>_<dimension name>`, or the null-dereference failure exactly when its lookup finds nothing; one unsuffixed argument gives no dimension |
| `LoadWorld.Decide` | src/main/java/net/canarymod/commandsys/commands/world/LoadWorldCommand.java:42-61 | each of the five notices holds exactly in its own situation; a world is loaded exactly when the dimension is known, the fully-qualified name exists and the world is not loaded; what is loaded is the stripped name with that dimension |
| `LoadWorld.UnsuffixedSingleArgument` | src/main/java/net/canarymod/commandsys/commands/world/LoadWorldCommand.java:25-57 | one argument without a dimension suffix always gives "Dimension type is non-existant" and loads nothing |
| `LoadWorld.SuffixIgnoresLaterArguments` | src/main/java/net/canarymod/commandsys/commands/world/LoadWorldCommand.java:27-32 | with a suffixed first argument, the outcome does not depend on any further argument |
| `LoadWorld.SuffixedArgumentNames` | src/main/java/net/canarymod/commandsys/commands/world/LoadWorldCommand.java:24-45 | for a suffixed argument, existence is checked on the unsplit argument; the loaded check and the load use the shorter name before the last underscore |
| `LoadWorld.SecondArgumentNames` | src/main/java/net/canarymod/commandsys/commands/world/LoadWorldCommand.java:32-45 | a single-digit second argument is looked up by id, any other by upper-cased name; existence is checked on `<first>_<dimension name>`, and `<first>` is what is loaded |
| `LoadWorld.UnknownSecondArgumentFails` | src/main/java/net/canarymod/commandsys/commands/world/LoadWorldCommand.java:37-61 | a second argument naming no dimension yields only "Failed to load '<first>'. See console for error." |
| `LoadWorld.RepeatReportsAlreadyLoaded` | src/main/java/net/canarymod/commandsys/commands/world/LoadWorldCommand.java:42-49 | a second run after a successful load reports "World was already loaded..." and loads nothing |
| `LoadWorld.WorldManager.constructor` | src/main/java/net/canarymod/commandsys/commands/world/LoadWorldCommand.java:22 | a world manager holding the given existing and loaded worlds |
| `LoadWorld.WorldManager.WorldExists` | src/main/java/net/canarymod/commandsys/commands/world/LoadWorldCommand.java:43 | existence is answered from the set of existing fully-qualified names |
| `LoadWorld.WorldManager.WorldIsLoaded` | src/main/java/net/canarymod/commandsys/commands/world/LoadWorldCommand.java:44 | loadedness is answered from the set of loaded (plain name, dimension) pairs |
| `LoadWorld.WorldManager.LoadWorld` | src/main/java/net/canarymod/commandsys/commands/world/LoadWorldCommand.java:45 | loading adds exactly the (name, dimension) pair to the loaded set and leaves the existing worlds alone |
| `LoadWorld.MessageReceiver.constructor` | src/main/java/net/canarymod/commandsys/commands/world/LoadWorldCommand.java:20 | a caller that has received no notices |
| `LoadWorld.MessageReceiver.Notice` | src/main/java/net/canarymod/commandsys/commands/world/LoadWorldCommand.java:46 | a notice is appended to the caller's log |
| `LoadWorld.LoadWorldCommand.constructor` | src/main/java/net/canarymod/commandsys/commands/world/LoadWorldCommand.java:17-18 | a new command's shared matcher is over the empty input |
| `LoadWorld.LoadWorldCommand.Execute` | src/main/java/net/canarymod/commandsys/commands/world/LoadWorldCommand.java:20-63 | the caller receives exactly one notice, the text of `Decide`'s notice; the loaded set grows by exactly what `Decide` loads; the existing worlds are unchanged; the shared matcher is left over the first argument |

## Left out

- `ServerConfiguration`: every accessor delegates to an external properties-file library whose behaviour is not part of this model, and `reload`/`save` are file I/O.
- `Scoreboard`, `IPluginManager`, `PlayerSelector`: interfaces with no implementation in the repository. Their documented contracts (for example, that `matchOnePlayer` gives null on zero or several matches) cannot be modelled without inventing an implementation.
- `DimensionType`, `WorldManager` and `MessageReceiver`: foreign code, modelled only as the lookups and sets described above. The dimension lookups are arbitrary functions, so no assumption is made about which names or ids they know.
- Exceptions from foreign calls: the only exception modelled is the null dereference of `type.getName()`. An exception thrown by the world manager, by the lookups or by `notice` is not modelled.
- Empty `parameters`: the catch block indexes `parameters[0]` again and throws out of the command, so `Execute`, `Resolve`, `Decide` and the lemmas about them require at least one parameter.
- `JavaText.ToUpperCase`: maps only ASCII `a`-`z`; the locale-dependent Unicode case mapping of `String.toUpperCase()` (e.g. one character becoming two) is not modelled.
- `JavaText.ParseDigit`: only the single ASCII digit that `\d` admits reaches `Integer.parseInt`, so no other input to it is modelled.
- Concurrency: the command's one `Matcher` field is shared between calls, and calls on different threads could interleave; the model treats each run as atomic.
- strings are Dafny strings of Unicode scalar values rather than Java's UTF-16 code units; the command's character classes are all in the Basic Multilingual Plane, so this does not change which arguments match.
