# DroidInstrument probe synthesis, modelled in Dafny

DroidInstrument instruments the methods of an Android app, which the
instrumenter sees in Soot's Jimple form. For every method that passes the
blacklist filter it builds a short run of Jimple statements, a *probe*,
that prints a tagged trace line when the method runs. This project models
the three core classes and proves what they emit.

- `JimpleGenerator` builds the per-method probe:
  - a `<METHOD>` line;
  - or a `<CONTROL>` line carrying the id of a `View` or `MenuItem` first parameter;
  - plus an `<ACTIVITY>` preface for `onCreate`;
  - plus a `<FRAGMENT>` link for `onCreateView`. The link walks the class
    hierarchy for a `getActivity` accessor and guards the activity's class
    name behind a null test.
- `InstrumentUtil` holds the helpers of the `Log.i` coverage probe:
  - the platform-method test;
  - string coercion into a caller-supplied list;
  - two-operand concatenation.
- `Filter` decides which packages, classes and methods are instrumented.

## Layout

- `jimple.dfy` (module `Jimple`) is the Jimple vocabulary: types, locals,
  operands, invoke expressions and the five statement forms generated. It
  also defines `Emitted(units, temps, outcome)`. That is what one
  synthesis step appends, which temporaries it allocates and whether it
  succeeded. A Java exception becomes an `Err` outcome, and the statements
  already appended before the throw are kept.
- `hierarchy.dfy` (module `Hierarchy`) is the loaded class hierarchy as a
  map from class name to superclass and declared methods. It contains the
  `getActivity` search.
- `synthesis.dfy` (module `Synthesis`) says, as functions of the first
  fresh local id `n`, what every generator step emits. It also holds the
  lemmas about those functions.
- `body.dfy` (module `Bodies`) is the method body: its identity locals and
  its chain of local declarations. A fresh local is appended to that chain.
- `generator.dfy` (module `Generator`) is the class `JimpleGenerator`. Its
  mutable statement list is modelled as `units`. Each method is proved to
  append exactly its Synthesis function's statements, to allocate exactly
  its temporaries and to return its outcome.
- `strings.dfy` (module `Strings`) holds `startsWith` and `contains`.
- `instrument_util.dfy` (module `InstrumentUtil`) holds the helpers. The
  caller's `generated` list is a `UnitList` object that they append to.
- `filter.dfy` (module `Filter`) holds the three predicates. The two
  blacklists are parameters.

In these places the model follows the code exactly, where a reader might expect otherwise:

- The View/MenuItem probe is not an alternative to the `onCreate` and
  `onCreateView` prefaces. The two name tests run one after the other, and
  the generic probe is always emitted last (`JimpleGenerator.java:37-66`).
- The activity temporary of the fragment link is typed as the ancestor
  class in which `getActivity` was found, not as the accessor's return
  type (`JimpleGenerator.java:121`).
- The fragment link builds one message and prints it once, at the end. The
  null test jumps to the builder's `toString`, so only the `" Activity: "`
  append and the activity's class name are skipped
  (`JimpleGenerator.java:128-165`).
- `InstrumentUtil.appendTwoStrings` emits the coercion of its second operand
  before the builder's `<init>`. `JimpleGenerator.generateAppend` emits it
  after (`InstrumentUtil.java:70-75`, `JimpleGenerator.java:229-239`).

## Model

| member | source | states |
|---|---|---|
| Generator.JimpleGenerator.constructor | src/main/java/phd/research/jimple/JimpleGenerator.java:28-31 | a new generator has an empty statement list over the given body |
| Generator.JimpleGenerator.GetUnits | src/main/java/phd/research/jimple/JimpleGenerator.java:33-35 | returns the statements built so far |
| Generator.JimpleGenerator.GenerateInstrumentUnits | src/main/java/phd/research/jimple/JimpleGenerator.java:37-66 | appends the name-selected preface and then, unless the preface failed, the generic probe; allocates their temporaries in that order; returns the outcome |
| Synthesis.Preface | src/main/java/phd/research/jimple/JimpleGenerator.java:38-47 | the preface fails exactly for a static `onCreate` or `onCreateView`; a method with any other name gets no statements and no temporaries before the generic probe |
| Synthesis.InstrumentOnCreate | src/main/java/phd/research/jimple/JimpleGenerator.java:37-66 | for `onCreate`, the 8-statement lifecycle preface comes first and the generic probe is last; a static `onCreate` fails with nothing emitted |
| Synthesis.InstrumentOnCreateView | src/main/java/phd/research/jimple/JimpleGenerator.java:37-66 | for `onCreateView`, the fragment link comes first and the generic probe is last; a static one fails after the builder's 2 statements |
| Synthesis.InstrumentOther | src/main/java/phd/research/jimple/JimpleGenerator.java:37-66 | any other method gets the generic probe alone |
| Synthesis.InstrumentUnits | src/main/java/phd/research/jimple/JimpleGenerator.java:37-66 | synthesis fails exactly for an `onCreate` or `onCreateView` method without a `this` (a static one); every other method succeeds |
| Generator.JimpleGenerator.GeneratePreface | src/main/java/phd/research/jimple/JimpleGenerator.java:38-47 | makes the two name tests one after the other and emits what Preface describes |
| Generator.JimpleGenerator.GenerateActivityProbe | src/main/java/phd/research/jimple/JimpleGenerator.java:38-43 | emits the lifecycle preface as OnCreateProbe describes |
| Synthesis.OnCreateProbe | src/main/java/phd/research/jimple/JimpleGenerator.java:38-43 | the lifecycle preface succeeds exactly when the method has a `this` |
| Synthesis.OnCreateProbeShape | src/main/java/phd/research/jimple/JimpleGenerator.java:38-43 | the lifecycle preface is 8 statements: the class name of `this`, then a builder seeded with "<ACTIVITY> Activity: " to which the name is appended, then the print; in a static method it fails with nothing emitted |
| Generator.JimpleGenerator.GenerateGenericProbe | src/main/java/phd/research/jimple/JimpleGenerator.java:49-65 | emits the generic probe as GenericProbe describes |
| Synthesis.GenericProbe | src/main/java/phd/research/jimple/JimpleGenerator.java:49-65 | the generic probe never fails |
| Synthesis.GenericProbeShape | src/main/java/phd/research/jimple/JimpleGenerator.java:49-65 | a View first parameter gives 8 statements beginning with a virtual `getId`, a MenuItem 8 beginning with an interface `getItemId`, tested in that order; then the builder's `new`, `<init>` with the control message, `String.valueOf(int)` of the id, `StringBuilder.append` of that string on the builder into a fresh builder temporary, the toString and the print; any other method gets the 2-statement print of "<METHOD> Method: " and the signature |
| Generator.JimpleGenerator.GenerateControlReport | src/main/java/phd/research/jimple/JimpleGenerator.java:49-65 | emits the control message with the id appended, then its print |
| Synthesis.ControlReportShape | src/main/java/phd/research/jimple/JimpleGenerator.java:49-65 | ControlReport is 7 statements: the builder's `new`, `<init>` with the control message, `String.valueOf(int)` of the id, `StringBuilder.append` of that string on the builder into a fresh builder temporary, the toString, then the print of the result |
| Generator.JimpleGenerator.GenerateFragmentLink | src/main/java/phd/research/jimple/JimpleGenerator.java:68-166 | emits the fragment link as FragmentLink describes |
| Synthesis.FragmentLink | src/main/java/phd/research/jimple/JimpleGenerator.java:68-166 | the link succeeds exactly when the method has a `this` |
| Synthesis.FragmentLinkStatic | src/main/java/phd/research/jimple/JimpleGenerator.java:68-83 | without a `this`, the link fails after the builder's `new` and `<init>` |
| Synthesis.FragmentLinkSplit | src/main/java/phd/research/jimple/JimpleGenerator.java:68-166 | with a `this`, the link is its 5-statement straight-line head followed by its rest |
| Synthesis.FragmentHeadForm | src/main/java/phd/research/jimple/JimpleGenerator.java:68-89 | FragmentHead, the head of the link, is exactly 5 straight-line statements with 5 temporaries: the new StringBuilder, its `<init>` with the "<FRAGMENT> Fragment: " seed, `getClass` and `getName` on `this`, and the append of that name |
| Synthesis.FragmentLinkShape | src/main/java/phd/research/jimple/JimpleGenerator.java:113-165 | the link is 8 statements when no ancestor declares getActivity and 14 when one does; both end with the builder's toString and the print of its result |
| Synthesis.FragmentLinkBranch | src/main/java/phd/research/jimple/JimpleGenerator.java:113-165 | without a getActivity ancestor the link has no branch; with one it has exactly one, at index 6, right after the assignment of the activity temporary; it tests that temporary and jumps to the toString at index 11 |
| Synthesis.FragmentRestPlain | src/main/java/phd/research/jimple/JimpleGenerator.java:113-158 | without a getActivity ancestor the rest is the toString and the print |
| Synthesis.FragmentRestGuarded | src/main/java/phd/research/jimple/JimpleGenerator.java:117-165 | with one, the rest is 9 statements: the fetch into a temporary typed as the ancestor, the null test jumping to the toString, then statements 2 to 5 are exactly ActivityName of that temporary, then the toString and the print |
| Synthesis.FragmentRest | src/main/java/phd/research/jimple/JimpleGenerator.java:113-165 | the rest of the link never fails; it is 3 statements when no ancestor declares getActivity and 9 when one does |
| Generator.JimpleGenerator.GenerateFragmentRest | src/main/java/phd/research/jimple/JimpleGenerator.java:91-165 | searches the hierarchy and emits the rest as FragmentRest describes |
| Generator.JimpleGenerator.GenerateGuardedLink | src/main/java/phd/research/jimple/JimpleGenerator.java:117-165 | emits the fetch and the guarded tail, then inserts the null test right after the fetch |
| Generator.JimpleGenerator.GenerateActivityReport | src/main/java/phd/research/jimple/JimpleGenerator.java:128-158 | emits the guarded appends, the toString and the print |
| Generator.JimpleGenerator.GenerateActivityName | src/main/java/phd/research/jimple/JimpleGenerator.java:128-150 | emits the guarded appends as ActivityName describes |
| Synthesis.ActivityNameForm | src/main/java/phd/research/jimple/JimpleGenerator.java:128-150 | ActivityName, the guarded part, is exactly 4 straight-line statements with 4 temporaries: the append of " Activity: ", `getClass` and `getName` on the activity, and the append of that name to the same builder |
| Generator.JimpleGenerator.InsertAt | src/main/java/phd/research/jimple/JimpleGenerator.java:164 | the statement is placed at the index and the rest shift right, unchanged |
| Generator.JimpleGenerator.FindGetActivityMethod | src/main/java/phd/research/jimple/JimpleGenerator.java:96-108 | the loop's result is the hierarchy search FindGetActivity |
| Generator.JimpleGenerator.ScanForGetActivity | src/main/java/phd/research/jimple/JimpleGenerator.java:101-106 | the scan returns the first method named getActivity in declaration order |
| Hierarchy.FirstNamed | src/main/java/phd/research/jimple/JimpleGenerator.java:101-106 | the index found is that of the first declaration with the name, and none means no declaration has it |
| Hierarchy.SearchFrom | src/main/java/phd/research/jimple/JimpleGenerator.java:100-108 | a class the walk returns is in the hierarchy and has a superclass, the declaration returned with it is named getActivity, and the class ranks no higher than the one the walk starts from |
| Hierarchy.FindGetActivity | src/main/java/phd/research/jimple/JimpleGenerator.java:96-108 | the class found is never the fragment itself, and the declaration found is named getActivity |
| Hierarchy.FindGetActivityFirst | src/main/java/phd/research/jimple/JimpleGenerator.java:96-108 | the search never looks at the fragment class itself; it returns the nearest ancestor that has a superclass and declares getActivity, with that declaration; it returns nothing exactly when no ancestor qualifies |
| Hierarchy.SearchFromFirst | src/main/java/phd/research/jimple/JimpleGenerator.java:100-108 | the walk from a class finds the first qualifying class on its chain, and finds none exactly when none qualifies |
| Hierarchy.RankStep | src/main/java/phd/research/jimple/JimpleGenerator.java:100-107 | stepping to the superclass stays in the hierarchy and lowers the rank, so the walk ends |
| Generator.JimpleGenerator.GenerateGetName | src/main/java/phd/research/jimple/JimpleGenerator.java:168-184 | emits GetName: the class name of `this`, or a failure with nothing emitted in a static method |
| Synthesis.GetName | src/main/java/phd/research/jimple/JimpleGenerator.java:168-184 | in a static method it fails with nothing emitted; otherwise it is ClassNameOf `this` |
| Generator.JimpleGenerator.GenerateClassName | src/main/java/phd/research/jimple/JimpleGenerator.java:170-183 | emits ClassNameOf |
| Synthesis.ClassNameOf | src/main/java/phd/research/jimple/JimpleGenerator.java:170-183 | 2 statements: getClass into a fresh Class temporary, then getName of it into a fresh String temporary, which is the result |
| Generator.JimpleGenerator.GeneratePrint | src/main/java/phd/research/jimple/JimpleGenerator.java:186-197 | emits Print |
| Synthesis.Print | src/main/java/phd/research/jimple/JimpleGenerator.java:186-197 | always 2 statements: `System.out` loaded into a fresh PrintStream temporary, then println on that temporary with the message unchanged |
| Generator.JimpleGenerator.GenerateGetId | src/main/java/phd/research/jimple/JimpleGenerator.java:199-207 | emits GetId and returns its int temporary |
| Synthesis.GetId | src/main/java/phd/research/jimple/JimpleGenerator.java:199-207 | one virtual `getId` call on the parameter into a fresh int |
| Generator.JimpleGenerator.GenerateGetItemId | src/main/java/phd/research/jimple/JimpleGenerator.java:209-217 | emits GetItemId and returns its int temporary |
| Synthesis.GetItemId | src/main/java/phd/research/jimple/JimpleGenerator.java:209-217 | one interface `getItemId` call on the parameter into a fresh int |
| Generator.JimpleGenerator.GenerateAppend | src/main/java/phd/research/jimple/JimpleGenerator.java:219-247 | emits Append and returns its outcome |
| Generator.JimpleGenerator.GenerateBuilderStart | src/main/java/phd/research/jimple/JimpleGenerator.java:220-232 | emits the builder's `new` and `<init>` |
| Generator.JimpleGenerator.GenerateBuilderAppend | src/main/java/phd/research/jimple/JimpleGenerator.java:234-239 | emits the coercion and the append into a fresh StringBuilder |
| Synthesis.Append | src/main/java/phd/research/jimple/JimpleGenerator.java:219-247 | the concatenation succeeds exactly when its second operand can be coerced |
| Synthesis.AppendShape | src/main/java/phd/research/jimple/JimpleGenerator.java:219-247 | Append (StartBuilder then AppendStep, then the toString) is 4 statements for a string operand and 5 otherwise, in the order new, `<init>`, coercion, append, toString; the result is the String temporary allocated first and assigned last; on failure only new and `<init>` are emitted |
| Synthesis.AppendString | src/main/java/phd/research/jimple/JimpleGenerator.java:234-239 | AppendStep of a string operand is the single append statement into one fresh builder temporary |
| Generator.JimpleGenerator.GenerateNewLocal | src/main/java/phd/research/jimple/JimpleGenerator.java:249-252 | the new local has the next id and the requested type; the body gains exactly that declaration |
| Bodies.Body.NewLocal | src/main/java/phd/research/jimple/JimpleGenerator.java:249-252 | the same, and the local is none of the identity locals and is declared with its type |
| Bodies.Body.constructor | src/main/java/phd/research/jimple/JimpleGenerator.java:25-31 | a body whose identity locals match the method (one per parameter at its type, `this` at the declaring class) and are declared in its local chain is valid, with exactly the given method, identity locals and chain |
| Generator.JimpleGenerator.GenerateToString | src/main/java/phd/research/jimple/JimpleGenerator.java:254-280 | emits Coerce and returns its outcome |
| Synthesis.Coerce | src/main/java/phd/research/jimple/JimpleGenerator.java:254-280 | coercion succeeds exactly for strings, primitives and locals |
| Synthesis.CoerceCases | src/main/java/phd/research/jimple/JimpleGenerator.java:254-280 | a string comes back unchanged with nothing emitted; a primitive becomes `String.valueOf` of its own type, and a non-string local becomes `Object.toString`, each into one fresh String; anything else fails with nothing emitted |
| InstrumentUtil.AnyStartsWithIff | src/main/java/phd/research/InstrumentUtil.java:40-41 | the fold of the prefix tests with logical or holds exactly when some prefix matches |
| InstrumentUtil.AnyStartsWith | src/main/java/phd/research/InstrumentUtil.java:40-41 | the fold never loses a true seed, and when no prefix matches it returns the seed unchanged |
| InstrumentUtil.IsAndroidMethod | src/main/java/phd/research/InstrumentUtil.java:38-42 | a method is a platform method exactly when its declaring class's full name starts with "android.", "com.google.android" or "androidx." |
| InstrumentUtil.AppMethodExample | src/main/java/phd/research/InstrumentUtil.java:38-42 | a method of `com.example.test` is not a platform method |
| InstrumentUtil.SupportMethodExample | src/main/java/phd/research/InstrumentUtil.java:38-42 | a method of `androidx.fragment.app.Fragment` is one |
| InstrumentUtil.GenerateLogStatement | src/main/java/phd/research/InstrumentUtil.java:44-46 | for a bare message, exactly one statement, `Log.i("<COVERAGE_TEST>", msg)`, and no new local |
| InstrumentUtil.GenerateLogStatements | src/main/java/phd/research/InstrumentUtil.java:48-58 | returns the statements LogStatements describes; on failure it returns the error, and the locals already allocated stay |
| InstrumentUtil.LogStatements | src/main/java/phd/research/InstrumentUtil.java:44-58 | the statements are produced exactly when there is no value or the value can be coerced; a bare message allocates no local and a value always does; the last statement logs the message literal, or the concatenation's result (the third local it allocates) |
| InstrumentUtil.LogStatementsShape | src/main/java/phd/research/InstrumentUtil.java:48-58 | without a value, the single log call on the literal; with a coercible value, the concatenation's statements and then one log call on the local the last of them assigns; an uncoercible value fails |
| InstrumentUtil.AppendTwoStrings | src/main/java/phd/research/InstrumentUtil.java:60-78 | appends AppendTwo's statements to the caller's list and returns its outcome |
| InstrumentUtil.AppendTwo | src/main/java/phd/research/InstrumentUtil.java:60-78 | the concatenation succeeds exactly when its second operand can be coerced |
| InstrumentUtil.AppendTwoShape | src/main/java/phd/research/InstrumentUtil.java:60-78 | 4 statements for a string second operand and 5 otherwise, in the order new, coercion, `<init>`, append, toString; the result is the toString target; on failure only `new` is emitted and the 3 locals are allocated |
| InstrumentUtil.AppendTwoFresh | src/main/java/phd/research/InstrumentUtil.java:64-75 | the statements assign builder (n), then the coercion temporary (n+3) if any, then tmp (n+1), then result (n+2) |
| InstrumentUtil.AppendTwoDistinct | src/main/java/phd/research/InstrumentUtil.java:64-75 | no local is assigned twice, and each assigned local is one of the concatenation's fresh temporaries, declared at its type |
| InstrumentUtil.ToString | src/main/java/phd/research/InstrumentUtil.java:80-98 | appends Coerce's statements to the caller's list and returns its outcome |
| InstrumentUtil.GenerateNewLocal | src/main/java/phd/research/InstrumentUtil.java:100-103 | the new local has the next id and the requested type; the body gains exactly that declaration |
| Filter.IsValidMethod | src/main/java/phd/research/utility/Filter.java:26-31 | a valid method's name does not start with "access$", its class is not "R" and its package is valid |
| Filter.ValidMethodCases | src/main/java/phd/research/utility/Filter.java:26-31 | a method of a valid class is valid exactly when its name does not start with "access$"; a method of an invalid class never is |
| Filter.IsValidClass | src/main/java/phd/research/utility/Filter.java:33-44 | a valid class is not "R", its package is valid, and no class-blacklist entry is a prefix of its short name |
| Filter.ValidClassCases | src/main/java/phd/research/utility/Filter.java:33-44 | a class is invalid exactly when its package is invalid, its short name is "R", or a class-blacklist entry is a prefix of its short name |
| Filter.IsValidPackage | src/main/java/phd/research/utility/Filter.java:46-50 | no entry of the package blacklist is a prefix of a valid package; with an empty blacklist every package is valid |
| Filter.PackageEntryMatches | src/main/java/phd/research/utility/Filter.java:48-49 | an entry that is a prefix of the package name always rules it out, whichever kind it is; an entry longer than the name never does |
| Filter.PackageEntryKinds | src/main/java/phd/research/utility/Filter.java:46-50 | an entry starting with "." rules out every package name it occurs in, at any offset; any other entry rules out exactly the names it is a prefix of |
| Strings.StartsWith | src/main/java/phd/research/utility/Filter.java:49 | `startsWith` holds exactly when the pattern is no longer than the string and agrees with it character by character; the empty pattern is a prefix of everything |
| Strings.Contains | src/main/java/phd/research/utility/Filter.java:48 | `contains` holds whenever the pattern is a prefix, and only when it is no longer than the string |
| Strings.ContainsIff | src/main/java/phd/research/utility/Filter.java:48 | `contains` holds exactly when the pattern occurs at some offset |
| Filter.DottedEntryExample | src/main/java/phd/research/utility/Filter.java:46-50 | ".ads" rules out "com.ads.sdk" |
| Filter.PrefixEntryExample | src/main/java/phd/research/utility/Filter.java:46-50 | "ads" does not rule out "com.ads" |
| Filter.EmptyBlacklists | src/main/java/phd/research/utility/Filter.java:33-50 | with both blacklists empty, a class is valid exactly when its short name is not "R" |
| Filter.EmptyEntryRejectsAll | src/main/java/phd/research/utility/Filter.java:42-50 | an empty entry in either blacklist rules out everything |
| Filter.Monotone | src/main/java/phd/research/utility/Filter.java:26-50 | adding blacklist entries never makes a package, class or method valid |

## Left out

- The command-line entry points, settings, Soot set-up (`setupSoot`) and
  artifact writing are I/O. Logging is dropped: the warnings of the
  fragment link have no effect on what is emitted.
- Blacklist loading is left out. The two lists are parameters, one entry
  per resource line.
- The host glue is not modelled. The caller filters, generates, splices the
  statements before the first non-identity statement and re-validates the
  body. The model does not state that the spliced body passes Soot's
  validation (declaration before use, typing); it states what is emitted
  and which locals are allocated.
- Soot's `Scene` singleton becomes an explicit read-only `Scene` map passed
  to the generator's constructor.
- Symbol resolution (`getSootClass`, `getMethod`, `grabMethod`, `getField`)
  is taken to succeed. `java.lang.String` has no `valueOf(byte)` or
  `valueOf(short)`, so the source would fail to resolve those; the model
  emits the call.
- `DefaultLocalGenerator` naming is not modelled. A fresh local is
  identified by its index in the body's local chain.
- The text of a `RuntimeException` is not modelled. An unsupported operand
  is `Err(UnsupportedOperand(v))`. The only operands modelled are string
  constants, locals and static-field references. Other Jimple constants
  never reach the coercion in this code.
- `I_TAG` is declared in `InstrumentUtil` and never used, so it is not
  modelled.
- The unit tests exercise a different `InstrumentUtil` class. Only the
  platform-prefix cases carry over (`AppMethodExample`,
  `SupportMethodExample`).
