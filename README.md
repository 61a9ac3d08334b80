# AVM IDE plug-in: allow-list inspection and session cache

This project models the two pieces of logic in the AVM (Aion Virtual Machine) IDE plug-in
that do more than call into the IDE. It proves properties of both.

1. **The allow-list inspection** (`JCLWhitelistInspection`). It decides whether a smart
   contract may use a type, as a field type, a local-variable type or the owner class of a
   called method, and whether it may call a method.
   - Names under `org.aion.avm.userlib` and `org.aion.avm.api` are exempt.
   - Only class types are checked against the allow-list.
   - A call's parameter types are compared with the allowed descriptors of that method.
   Symbol resolution is taken as done: every type arrives as its canonical text. A call
   arrives as its owner class, method name and parameter types, or as `None` when resolution
   failed. The allow-list store is passed in as two parameters: a predicate on class names
   (`isClassAllowed`) and a function giving the allowed descriptors of a method of a class
   (`getAllowedMethodsForClass`). A "report" is a `Problem` value in the returned sequence.
2. **The session cache** (`AvmCacheService`). It holds:
   - remembered method arguments, a map that is cleared wholesale before an insert once it
     holds 30 or more entries;
   - per-module deploy arguments and "don't ask again" flags, kept in one map under two
     non-colliding key families;
   - two recency lists of contract addresses, one local and one remote.
   Its mutable objects are the classes `AvmCache.State` and `AvmCache.AvmCacheService`.
   Each method is proved to change `Current()`, the cache's contents as a `StateValue`, the
   way a pure function of the old contents says (`PutArgs`, `PutDeployArgs`,
   `PutShouldNotAsk`, `AddRecent`). The behaviour is proved as lemmas about those functions.
   `WellBounded` is the invariant the cache's own updates keep: at most 30 method entries,
   at most 11 addresses per list, and no duplicate address.

Java `null` is `Optional.Option.None`. It is used for module names, deploy values,
remembered argument lists and failed call resolution. The library behaviour the code relies
on is in `JavaText`:
- `String.trim` and `StringUtil.isEmptyOrSpaces`: every character up to `' '` counts as space;
- `startsWith` and `endsWith`;
- `Boolean.parseBoolean` and `Boolean.toString`;
- the reversed copy made by the address getters.

Points where the code does something other than its names and constants suggest. The model
follows the code in each case:
- **The address lists hold up to eleven entries, not ten.** The oldest entry is polled only
  when the list holds more than ten (`size() > 10`). `new ArrayDeque<>(10)` sets only an
  initial capacity. `AddRecentReachesEleven` and `TwelveAddressesKeepEleven` show this.
- **Parameter matching is looser than "all positions equal".** The inner loop accepts a
  same-arity descriptor as soon as ANY single position has equal type names. This is not
  restricted to the first position. `MatchDoesNotImplyStrictMatch` shows a call that is let
  through although its second parameter differs.
- **`shouldNotAskDeployArgs` ignores case.** `Boolean.parseBoolean` accepts `"TRUE"` and
  `"True"` as well as `"true"` (`ParseBooleanIgnoresCase`).

## Model

| member | source | states |
|---|---|---|
| `JCLWhitelistInspection.IsExemptName` | src/main/java/org/aion4j/avm/idea/inspection/JCLWhitelistInspection.java:24-25 | True iff the name starts with `org.aion.avm.userlib` or `org.aion.avm.api`, the test at lines 73, 136 and 230. An exempt name always starts with `org.aion.avm.` |
| `JCLWhitelistInspection.IsCheckedType` | src/main/java/org/aion4j/avm/idea/inspection/JCLWhitelistInspection.java:241-245 | True iff the type is a class type; primitives and every other kind of type are not checked |
| `JCLWhitelistInspection.DeclarationProblems` | src/main/java/org/aion4j/avm/idea/inspection/JCLWhitelistInspection.java:50-81 | The problems `visitField`, and identically `visitLocalVariable` (lines 207-237), register for one declaration: at most one, naming the declared type, and only for a non-exempt class type |
| `JCLWhitelistInspection.IsMethodAllowed` | src/main/java/org/aion4j/avm/idea/inspection/JCLWhitelistInspection.java:154-191 | The nested descriptor/parameter loop with its flag and `break`s returns true exactly when some descriptor matches: both parameter lists empty, or the same arity and equal type names at some position |
| `JCLWhitelistInspection.VisitMethodCall` | src/main/java/org/aion4j/avm/idea/inspection/JCLWhitelistInspection.java:121-203 | The problems registered for one call are exactly `CallProblems`: none for an unresolved or exempt call, otherwise the class problem if the owner class is not allowed, then the method problem if the loop finds no match |
| `JCLWhitelistInspection.ExemptDeclarationNeverReported` | src/main/java/org/aion4j/avm/idea/inspection/JCLWhitelistInspection.java:73-74 | A field or local variable whose type name starts with an exempt prefix is never reported |
| `JCLWhitelistInspection.NonClassDeclarationNeverReported` | src/main/java/org/aion4j/avm/idea/inspection/JCLWhitelistInspection.java:241-245 | A field or local variable whose type is not a class type is never reported |
| `JCLWhitelistInspection.DeclarationReportedIff` | src/main/java/org/aion4j/avm/idea/inspection/JCLWhitelistInspection.java:221-236 | A field or local variable produces at most one problem, naming its type. It is reported iff its type is a class type, not exempt and not allowed |
| `JCLWhitelistInspection.ExemptCallNeverReported` | src/main/java/org/aion4j/avm/idea/inspection/JCLWhitelistInspection.java:136-137 | A call whose owner class starts with an exempt prefix is never reported, whatever the allow-list says |
| `JCLWhitelistInspection.UnresolvedCallNeverReported` | src/main/java/org/aion4j/avm/idea/inspection/JCLWhitelistInspection.java:124-143 | A call whose target method or owner class name cannot be resolved is never reported |
| `JCLWhitelistInspection.ZeroArityCallAllowed` | src/main/java/org/aion4j/avm/idea/inspection/JCLWhitelistInspection.java:159-162 | A zero-parameter call is allowed as soon as some descriptor has no parameters |
| `JCLWhitelistInspection.ArityMismatchNeverMatches` | src/main/java/org/aion4j/avm/idea/inspection/JCLWhitelistInspection.java:164-165 | A descriptor whose parameter count differs from the call's never matches it |
| `JCLWhitelistInspection.OnlySameArityCounts` | src/main/java/org/aion4j/avm/idea/inspection/JCLWhitelistInspection.java:155-171 | Adding a descriptor of another arity to the list leaves the verdict unchanged, in both directions |
| `JCLWhitelistInspection.SameArityMatchIff` | src/main/java/org/aion4j/avm/idea/inspection/JCLWhitelistInspection.java:173-186 | A same-arity, non-empty descriptor matches iff there is a position where its type name equals the call's |
| `JCLWhitelistInspection.StrictMatchImpliesMatch` | src/main/java/org/aion4j/avm/idea/inspection/JCLWhitelistInspection.java:159-190 | A descriptor equal to the call's parameter list at every position always matches |
| `JCLWhitelistInspection.MatchDoesNotImplyStrictMatch` | src/main/java/org/aion4j/avm/idea/inspection/JCLWhitelistInspection.java:182-186 | The converse fails: descriptor `(int, long)` matches a call with parameters `(int, java.lang.String)` |
| `JCLWhitelistInspection.MethodReportedIff` | src/main/java/org/aion4j/avm/idea/inspection/JCLWhitelistInspection.java:193-196 | For a non-exempt resolved call, the method problem is registered iff no descriptor matches. An empty descriptor list always yields it |
| `JCLWhitelistInspection.ClassReportedIff` | src/main/java/org/aion4j/avm/idea/inspection/JCLWhitelistInspection.java:147-150 | The class problem is registered iff the owner class is not allowed. When both checks fail, the call yields both problems, class problem first |
| `JCLWhitelistInspection.SingleOverloadScenario` | src/main/java/org/aion4j/avm/idea/inspection/JCLWhitelistInspection.java:147-196 | With only `bar(int)` allow-listed on an allowed `pkg.Foo`, `bar(int)` yields no problem and `bar(int, int)` yields exactly the method problem |
| `AvmCache.EncodeMethod` | src/main/java/org/aion4j/avm/idea/service/AvmCacheService.java:33-46 | The key built in the loop is the name, then `-`, then each parameter type followed by `,` |
| `AvmCache.MethodKeyExamples` | src/main/java/org/aion4j/avm/idea/service/AvmCacheService.java:33-46 | `foo(int, String)` gives `foo-int,String,`; `foo()` gives `foo-` |
| `AvmCache.MethodKeyRoundTrip` | src/main/java/org/aion4j/avm/idea/service/AvmCacheService.java:33-46 | If the name has no `-` and no type has a `,`, the key can be decoded back into the name and the parameter types |
| `AvmCache.MethodKeyInjective` | src/main/java/org/aion4j/avm/idea/service/AvmCacheService.java:48-63 | Two such signatures share a cache key only if they are the same signature |
| `AvmCache.DeployArgsKey` | src/main/java/org/aion4j/avm/idea/service/AvmCacheService.java:145-150 | A deploy-arguments key always ends with `args` |
| `AvmCache.DontAskKey` | src/main/java/org/aion4j/avm/idea/service/AvmCacheService.java:152-157 | A don't-ask key ends with `dontask` and never with `args` |
| `AvmCache.KeyFamiliesDisjoint` | src/main/java/org/aion4j/avm/idea/service/AvmCacheService.java:145-157 | No deploy-arguments key equals a don't-ask key, for any two modules |
| `AvmCache.DeployArgsKeyInjective` | src/main/java/org/aion4j/avm/idea/service/AvmCacheService.java:145-150 | Two modules share a deploy key iff both are null or blank (key `args`) or both are the same non-blank name |
| `AvmCache.DontAskKeyInjective` | src/main/java/org/aion4j/avm/idea/service/AvmCacheService.java:152-157 | Two modules share a don't-ask key iff both are null or blank (key `dontask`) or both are the same non-blank name |
| `AvmCache.AllDeployArgsWithModuleName` | src/main/java/org/aion4j/avm/idea/service/AvmCacheService.java:93-100 | The listing holds exactly the stored entries whose key ends with `args` and whose value is neither null nor blank, with their values |
| `AvmCache.ArgsReadAfterWrite` | src/main/java/org/aion4j/avm/idea/service/AvmCacheService.java:48-63 | After remembering arguments for a key, reading that key gives them back |
| `AvmCache.ArgsOfEmpty` | src/main/java/org/aion4j/avm/idea/service/AvmCacheService.java:26-31 | An empty state, which is what a missing state reads as, remembers nothing |
| `AvmCache.PutArgsBounded` | src/main/java/org/aion4j/avm/idea/service/AvmCacheService.java:59-63 | After an insert the map holds at most 30 entries. If it held 30 or more, only the new entry is left, even when its key was present; otherwise every other entry is kept. The rest of the state is unchanged |
| `AvmCache.OverflowForgetsEarlierKeys` | src/main/java/org/aion4j/avm/idea/service/AvmCacheService.java:59-61 | With 30 entries stored, a 31st insert makes every earlier key read back as absent |
| `AvmCache.DeployArgsReadAfterWrite` | src/main/java/org/aion4j/avm/idea/service/AvmCacheService.java:66-78 | The module's stored deploy value is the trimmed input (null stays null) and is read back. Method arguments are untouched |
| `AvmCache.PutDeployArgsKeepsOthers` | src/main/java/org/aion4j/avm/idea/service/AvmCacheService.java:70-78 | Storing deploy arguments keeps the arguments of every module with a different key |
| `AvmCache.PutDeployArgsKeepsFlags` | src/main/java/org/aion4j/avm/idea/service/AvmCacheService.java:77 | Storing deploy arguments keeps every module's don't-ask flag |
| `AvmCache.BlankModulesShareDeployArgs` | src/main/java/org/aion4j/avm/idea/service/AvmCacheService.java:145-147 | Arguments stored under a blank module are read back under null or any blank module, at key `args`, trimmed |
| `AvmCache.ShouldNotAskDefault` | src/main/java/org/aion4j/avm/idea/service/AvmCacheService.java:80-84 | Without a stored flag, the prompt is not suppressed |
| `AvmCache.ShouldNotAskReadAfterWrite` | src/main/java/org/aion4j/avm/idea/service/AvmCacheService.java:80-91 | After setting the flag for a module, `shouldNotAskDeployArgs` for that module returns it |
| `AvmCache.PutShouldNotAskKeepsDeployArgs` | src/main/java/org/aion4j/avm/idea/service/AvmCacheService.java:86-91 | Setting a flag leaves every module's deploy arguments unchanged |
| `AvmCache.PutShouldNotAskKeepsListing` | src/main/java/org/aion4j/avm/idea/service/AvmCacheService.java:86-100 | Setting a flag leaves the deploy-arguments listing unchanged |
| `AvmCache.DontAskNeverListed` | src/main/java/org/aion4j/avm/idea/service/AvmCacheService.java:97-99 | A don't-ask entry never appears in the deploy-arguments listing |
| `AvmCache.PutDeployArgsListed` | src/main/java/org/aion4j/avm/idea/service/AvmCacheService.java:70-100 | Non-blank deploy arguments appear in the listing under their module's key, trimmed |
| `AvmCache.PutBlankDeployArgsNotListed` | src/main/java/org/aion4j/avm/idea/service/AvmCacheService.java:70-100 | Null or blank deploy arguments are stored but do not appear in the listing |
| `AvmCache.AddRecentContains` | src/main/java/org/aion4j/avm/idea/service/AvmCacheService.java:108-119 | The added address is in the list afterwards |
| `AvmCache.AddRecentDistinct` | src/main/java/org/aion4j/avm/idea/service/AvmCacheService.java:116-118 | A duplicate-free list stays duplicate-free |
| `AvmCache.AddRecentPresent` | src/main/java/org/aion4j/avm/idea/service/AvmCacheService.java:113-118 | Adding an address that is already in a list of at most ten leaves the list unchanged |
| `AvmCache.AddRecentShape` | src/main/java/org/aion4j/avm/idea/service/AvmCacheService.java:113-118 | First the oldest entry is dropped if the list holds more than ten. Then the address is appended unless already present. The size stays at most 11, or at most the old size if that was larger. A new address is listed first |
| `AvmCache.AddRecentReachesEleven` | src/main/java/org/aion4j/avm/idea/service/AvmCacheService.java:113 | Ten addresses plus a new one make eleven: nothing is polled at size ten |
| `AvmCache.AddAllRecentKeepsUpToEleven` | src/main/java/org/aion4j/avm/idea/service/AvmCacheService.java:108-119 | Adding up to eleven distinct new addresses to an empty list keeps all of them, in insertion order |
| `AvmCache.TwelveAddressesKeepEleven` | src/main/java/org/aion4j/avm/idea/service/AvmCacheService.java:108-119 | After twelve distinct additions the list holds eleven entries: only the first address is gone |
| `AvmCache.AddTwiceOnce` | src/main/java/org/aion4j/avm/idea/service/AvmCacheService.java:116-118 | Adding the same address twice to a duplicate-free list leaves it in the list exactly once |
| `AvmCache.EmptyStateWellBounded` | src/main/java/org/aion4j/avm/idea/service/AvmCacheService.java:17-22 | A new `State` satisfies the bounds |
| `AvmCache.UpdatesPreserveWellBounded` | src/main/java/org/aion4j/avm/idea/service/AvmCacheService.java:53-138 | Every update keeps the invariant: at most 30 method entries, at most 11 addresses per list, no duplicate address |
| `AvmCache.State.constructor` | src/main/java/org/aion4j/avm/idea/service/AvmCacheService.java:17-22 | A new `State` holds two empty maps and two empty address lists |
| `AvmCache.AvmCacheService.constructor` | src/main/java/org/aion4j/avm/idea/service/AvmCacheService.java:24 | A new service holds no state |
| `AvmCache.AvmCacheService.GetState` | src/main/java/org/aion4j/avm/idea/service/AvmCacheService.java:26-31 | Returns the stored state. Without one, returns a fresh empty state and does not store it |
| `AvmCache.AvmCacheService.GetArgsFromCache` | src/main/java/org/aion4j/avm/idea/service/AvmCacheService.java:48-51 | Returns what is remembered under the method's key. Without a state nothing is remembered, and no state is created |
| `AvmCache.AvmCacheService.UpdateArgsToCache` | src/main/java/org/aion4j/avm/idea/service/AvmCacheService.java:53-64 | Keeps the stored state object, or stores a fresh one. Its contents become `PutArgs` of the old contents. Keeps the invariant |
| `AvmCache.AvmCacheService.GetDeployArgs` | src/main/java/org/aion4j/avm/idea/service/AvmCacheService.java:66-68 | Returns the value stored under the module's deploy key, or null |
| `AvmCache.AvmCacheService.UpdateDeployArgs` | src/main/java/org/aion4j/avm/idea/service/AvmCacheService.java:70-78 | Creates the state if needed. Stores the trimmed value under the module's deploy key and changes nothing else |
| `AvmCache.AvmCacheService.ShouldNotAskDeployArgs` | src/main/java/org/aion4j/avm/idea/service/AvmCacheService.java:80-84 | True iff a flag is stored under the module's don't-ask key and parses as true |
| `AvmCache.AvmCacheService.SetShouldNotAskDeployArgs` | src/main/java/org/aion4j/avm/idea/service/AvmCacheService.java:86-91 | Creates the state if needed. Stores `"true"`/`"false"` under the module's don't-ask key and changes nothing else |
| `AvmCache.AvmCacheService.GetAllDeployArgsWithModuleName` | src/main/java/org/aion4j/avm/idea/service/AvmCacheService.java:93-100 | Returns the deploy-arguments listing of the current contents |
| `AvmCache.AvmCacheService.GetLocalContractAddresses` | src/main/java/org/aion4j/avm/idea/service/AvmCacheService.java:102-106 | Returns the local list most recent first, as a reversed copy. Changes nothing |
| `AvmCache.AvmCacheService.GetRemoteContractAddresses` | src/main/java/org/aion4j/avm/idea/service/AvmCacheService.java:121-125 | Returns the remote list most recent first, as a reversed copy. Changes nothing |
| `AvmCache.AvmCacheService.AddLocalContractAddress` | src/main/java/org/aion4j/avm/idea/service/AvmCacheService.java:108-119 | The local list becomes `AddRecent` of the old one. Everything else, the remote list included, is unchanged. Keeps the invariant |
| `AvmCache.AvmCacheService.AddRemoteContractAddress` | src/main/java/org/aion4j/avm/idea/service/AvmCacheService.java:127-138 | The remote list becomes `AddRecent` of the old one. Everything else, the local list included, is unchanged. Keeps the invariant |
| `AvmCache.AvmCacheService.LoadState` | src/main/java/org/aion4j/avm/idea/service/AvmCacheService.java:140-142 | The given state, null included, replaces the current one wholesale |
| `JavaText.TrimEmptyIffBlank` | src/main/java/org/aion4j/avm/idea/service/AvmCacheService.java:146 | `isEmptyOrSpaces` is true of a string iff `trim()` empties it, which is iff every character is at most `' '` |
| `JavaText.TrimSpan` | src/main/java/org/aion4j/avm/idea/service/AvmCacheService.java:74-75 | `trim()` keeps a contiguous middle part, with only space-or-control characters cut off at either end |
| `JavaText.TrimIdempotent` | src/main/java/org/aion4j/avm/idea/service/AvmCacheService.java:74-75 | Trimming an already trimmed deploy value changes nothing |
| `JavaText.ParseBooleanToString` | src/main/java/org/aion4j/avm/idea/service/AvmCacheService.java:83-90 | A flag stored with `Boolean.toString` parses back to the same flag |
| `JavaText.ParseBooleanIsEqualsIgnoreCase` | src/main/java/org/aion4j/avm/idea/service/AvmCacheService.java:83 | A stored flag parses as true exactly when it has four characters, each the lower- or upper-case letter of `"true"` at that position, as `equalsIgnoreCase` compares them |
| `JavaText.ParseBooleanIgnoresCase` | src/main/java/org/aion4j/avm/idea/service/AvmCacheService.java:83 | `"TRUE"` and `"True"` parse as true; `"yes"`, `""` and `"false"` do not |
| `JavaText.ReversedSameElements` | src/main/java/org/aion4j/avm/idea/service/AvmCacheService.java:116-117 | The reversed listing contains an address iff the deque does |

## Left out

- The visitor plumbing of `JCLWhitelistInspection` is not modelled. This covers `buildVisitor`,
  the `ServiceManager` lookups, the `isAvmProject`/`isUnderTestSource` gating, the visitor's
  lazily set `project` field, problem locations and message text, logging, and the
  display-name, group-name and suppress-action overrides. These are IDE plumbing.
  A registered problem is a `Problem` value.
- PSI resolution is taken as done. Types arrive as canonical text with a class/non-class tag.
  All resolution failures become one case, `None`: a null method, a parent that is not a
  compiled class, a null qualified name.
- `AvmService.isClassAllowed` and `AvmService.getAllowedMethodsForClass` are outside the model.
  They are function parameters. Exceptions inside the second `try` block are not modelled:
  one thrown by these calls, a `null` descriptor list from `getAllowedMethodsForClass`, a
  `null` descriptor or one whose parameter list is `null`, or a `null` parameter. Each throws
  only when the loop reaches it: at line 147 or 152 (the store's calls), 155 (a null list),
  159 (a null descriptor or parameter list) or 182 (a null parameter). Line 198 catches it.
  An exception at 147 leaves no report; a later one skips only the method report, after the
  class report of lines 147-150 may already be registered. A null that the loop never
  reaches throws nothing: one after a `break` at 161 or 190, a descriptor of another arity
  skipped at 164-165, or a parameter after an equal position.
- `JCLWhitelistInspection.IsMethodAllowed` never looks at a descriptor's name. This is as in
  the code: the store is asked only for descriptors of the called method's name.
- IntelliJ persistence (`@State`, XML storage, `PersistentStateComponent`) is not modelled.
  Only `getState` and `loadState` are, as plain field access.
- `State` fields are never null in the model. A loaded state with a null field is not
  modelled; `getAllDeployArgsWithModuleName` checks for one.
- Java collections are updated in place; the model reassigns the map and sequence fields of
  the `State` object instead. Another holder of a reference to the same `HashMap` or
  `ArrayDeque` object would see these updates in Java; this aliasing is not modelled. The
  `State` object's own aliasing is modelled: `GetState` returns the stored object itself.
- Addresses are non-null strings. In Java, adding a null address throws from
  `ArrayDeque.add`, after the poll has already happened.
- `parallelStream()` in the address getters is modelled as a sequential copy. It carries
  no concurrency here.
- Strings are sequences of Dafny `char`, which are Unicode scalar values, while Java strings
  are UTF-16 code units. A supplementary character is two Java `char`s but one Dafny `char`,
  and an unpaired surrogate has no Dafny counterpart. Whole-string equality (type names
  against descriptor parameters, map keys, addresses) is decided alike by both encodings for
  well-formed strings. Apart from that, every comparison is with ASCII text: `' '`, the two
  package prefixes, `"-"`, `","`, `"args"`, `"dontask"` and `"true"`.
  On those comparisons the two encodings give the same results. `trim` and `isEmptyOrSpaces`
  cut every character up to `' '`. Case-insensitive comparison folds ASCII letters only,
  which is exact for comparison with `"true"`.
- `AvmCache.MethodKeyRoundTrip`: holds only for method names without `-` and type names
  without `,`. A generic parameter type such as `java.util.Map<K,V>` contains a comma, so the
  separator-free condition does not cover it, although the code accepts such keys.
- `src/main/java/org/aion4j/avm/idea/action/AvmConfiguration.java` is not part of this model.
  It is a settings dialog that copies fields to and from a UI form.
