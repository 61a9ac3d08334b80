/**
 * The plug-in's per-project session cache: remembered method arguments (bounded by
 * wholesale clearing), per-module deploy arguments and "don't ask again" flags, and two
 * recency lists of contract addresses (local and remote).
 *
 * The pure part states what each operation does to the cache's contents (`StateValue`);
 * the classes `State` and `AvmCacheService` are the mutable objects of the plug-in, whose
 * methods are proved to act on their contents as the pure operations say.
 */
module AvmCache {
  import opened Optional
  import opened JavaText

  /** `MAX_CACHE_ENTRY`: once the method-argument map holds this many entries it is cleared. */
  const MaxCacheEntry: nat := 30

  /** An address list is polled before an insert when it holds MORE than this many entries. */
  const AddressPollThreshold: nat := 10

  /** The contents of a `State` object. A `None` value is a stored Java `null`. */
  datatype StateValue = StateValue(
    methodArgs: map<string, Option<seq<string>>>,
    deployArgs: map<string, Option<string>>,
    localContractAddresses: seq<string>,   // oldest first, as the deque holds them
    remoteContractAddresses: seq<string>)  // oldest first

  /** What `new State()` holds. */
  const EmptyState: StateValue := StateValue(map[], map[], [], [])

  // ---- Method keys ----

  /** Each parameter type followed by ",". */
  function MethodKeyParams(paramTypes: seq<string>): string
    decreases |paramTypes|
  {
    if paramTypes == [] then ""
    else MethodKeyParams(paramTypes[..|paramTypes| - 1]) + paramTypes[|paramTypes| - 1] + ","
  }

  /** The key under which a method's arguments are remembered: the name, "-", then each
      parameter's canonical type followed by ",". */
  function MethodKey(name: string, paramTypes: seq<string>): string {
    name + "-" + MethodKeyParams(paramTypes)
  }

  /** `encodeMethod`: builds the key by appending to a buffer in a loop. */
  method EncodeMethod(name: string, paramTypes: seq<string>) returns (key: string)
    ensures key == MethodKey(name, paramTypes)
  {
    var sb := name + "-";
    var i := 0;
    while i < |paramTypes|
      invariant 0 <= i <= |paramTypes|
      invariant sb == name + "-" + MethodKeyParams(paramTypes[..i])
    {
      assert paramTypes[..i + 1][..i] == paramTypes[..i];
      sb := sb + paramTypes[i] + ",";
      i := i + 1;
    }
    assert paramTypes[..i] == paramTypes;
    key := sb;
  }

  /** The two keys the plug-in documents. */
  lemma MethodKeyExamples()
    ensures MethodKey("foo", ["int", "String"]) == "foo-int,String,"
    ensures MethodKey("foo", []) == "foo-"
  {
    assert ["int", "String"][..1] == ["int"];
    assert ["int"][..0] == [];
  }

  /** A method name without "-" and parameter types without ",": the key can then be read back. */
  predicate SeparatorFree(name: string, paramTypes: seq<string>) {
    '-' !in name && forall i :: 0 <= i < |paramTypes| ==> ',' !in paramTypes[i]
  }

  /** The first position of `c` in `s`, or `|s|`. */
  function IndexOf(s: string, c: char): (i: nat)
    ensures i <= |s|
    decreases |s|
  {
    if s == [] || s[0] == c then 0 else 1 + IndexOf(s[1..], c)
  }

  /** The position just after the last "," of `s`, or 0. */
  function LastParamStart(s: string): (j: nat)
    ensures j <= |s|
    decreases |s|
  {
    if s == [] then 0
    else if s[|s| - 1] == ',' then |s|
    else LastParamStart(s[..|s| - 1])
  }

  /** Splits a ","-terminated list back into its items. */
  function DecodeParams(s: string): Option<seq<string>>
    decreases |s|
  {
    if s == [] then Some([])
    else if s[|s| - 1] != ',' then None
    else
      var body := s[..|s| - 1];
      var j := LastParamStart(body);
      match DecodeParams(body[..j])
      case None => None
      case Some(init) => Some(init + [body[j..]])
  }

  /** Reads a method key back into the method name and the parameter types. */
  function DecodeMethodKey(key: string): Option<(string, seq<string>)> {
    var i := IndexOf(key, '-');
    if i == |key| then None
    else match DecodeParams(key[i + 1..])
      case None => None
      case Some(ps) => Some((key[..i], ps))
  }

  lemma {:induction false} IndexOfAfter(a: string, c: char, b: string)
    requires c !in a
    ensures IndexOf(a + [c] + b, c) == |a|
    decreases |a|
  {
    if a != [] {
      assert (a + [c] + b)[1..] == a[1..] + [c] + b;
      assert a[0] != c;
      IndexOfAfter(a[1..], c, b);
    }
  }

  lemma {:induction false} LastParamStartAfter(a: string, b: string)
    requires a == [] || a[|a| - 1] == ','
    requires ',' !in b
    ensures LastParamStart(a + b) == |a|
    decreases |b|
  {
    if b == [] {
      assert a + b == a;
    } else {
      var s := a + b;
      assert s[|s| - 1] == b[|b| - 1];
      assert s[..|s| - 1] == a + b[..|b| - 1];
      LastParamStartAfter(a, b[..|b| - 1]);
    }
  }

  lemma MethodKeyParamsShape(paramTypes: seq<string>)
    ensures MethodKeyParams(paramTypes) == [] <==> paramTypes == []
    ensures paramTypes != [] ==> MethodKeyParams(paramTypes)[|MethodKeyParams(paramTypes)| - 1] == ','
  {
  }

  lemma {:induction false} DecodeParamsRoundTrip(paramTypes: seq<string>)
    requires forall i :: 0 <= i < |paramTypes| ==> ',' !in paramTypes[i]
    ensures DecodeParams(MethodKeyParams(paramTypes)) == Some(paramTypes)
    decreases |paramTypes|
  {
    if paramTypes != [] {
      var init := paramTypes[..|paramTypes| - 1];
      var last := paramTypes[|paramTypes| - 1];
      var e := MethodKeyParams(init);
      var s := MethodKeyParams(paramTypes);
      assert s == e + last + ",";
      var body := s[..|s| - 1];
      assert body == e + last;
      MethodKeyParamsShape(init);
      LastParamStartAfter(e, last);
      assert body[..|e|] == e && body[|e|..] == last;
      DecodeParamsRoundTrip(init);
      assert init + [last] == paramTypes;
    }
  }

  /** The key of a separator-free signature reads back as that signature. */
  lemma MethodKeyRoundTrip(name: string, paramTypes: seq<string>)
    requires SeparatorFree(name, paramTypes)
    ensures DecodeMethodKey(MethodKey(name, paramTypes)) == Some((name, paramTypes))
  {
    var key := MethodKey(name, paramTypes);
    IndexOfAfter(name, '-', MethodKeyParams(paramTypes));
    assert key[..|name|] == name;
    assert key[|name| + 1..] == MethodKeyParams(paramTypes);
    DecodeParamsRoundTrip(paramTypes);
  }

  /** Two separator-free signatures share a key only if they are the same signature. */
  lemma MethodKeyInjective(n1: string, p1: seq<string>, n2: string, p2: seq<string>)
    requires SeparatorFree(n1, p1) && SeparatorFree(n2, p2)
    requires MethodKey(n1, p1) == MethodKey(n2, p2)
    ensures n1 == n2 && p1 == p2
  {
    MethodKeyRoundTrip(n1, p1);
    MethodKeyRoundTrip(n2, p2);
  }

  // ---- Deploy-argument keys ----

  /** `getModuleKeyForDeployArgs`. */
  function DeployArgsKey(moduleName: Option<string>): (k: string)
    ensures EndsWith(k, "args")
  {
    if IsEmptyOrSpaces(moduleName) then "args" else moduleName.value + ".args"
  }

  /** `getModuleKeyForDeployArgsDontAsk`. */
  function DontAskKey(moduleName: Option<string>): (k: string)
    ensures EndsWith(k, "dontask") && !EndsWith(k, "args")
  {
    var k := if IsEmptyOrSpaces(moduleName) then "dontask" else moduleName.value + ".dontask";
    assert k[|k| - 1] == 'k';
    k
  }

  /** A deploy-arguments key is never a don't-ask key. */
  lemma KeyFamiliesDisjoint(m1: Option<string>, m2: Option<string>)
    ensures DeployArgsKey(m1) != DontAskKey(m2)
  {
  }

  lemma SuffixCancel(a: string, b: string, suffix: string)
    requires a + suffix == b + suffix
    ensures a == b
  {
    assert a == (a + suffix)[..|a|];
    assert b == (b + suffix)[..|b|];
  }

  /** Blank and null module names share one key; any other module has a key of its own. */
  lemma DeployArgsKeyInjective(m1: Option<string>, m2: Option<string>)
    ensures DeployArgsKey(m1) == DeployArgsKey(m2) <==>
              (IsEmptyOrSpaces(m1) && IsEmptyOrSpaces(m2))
              || (!IsEmptyOrSpaces(m1) && !IsEmptyOrSpaces(m2) && m1.value == m2.value)
  {
    if !IsEmptyOrSpaces(m1) && !IsEmptyOrSpaces(m2) && DeployArgsKey(m1) == DeployArgsKey(m2) {
      SuffixCancel(m1.value, m2.value, ".args");
    }
    if IsEmptyOrSpaces(m1) != IsEmptyOrSpaces(m2) {
      assert |DeployArgsKey(m1)| != |DeployArgsKey(m2)| by {
        if !IsEmptyOrSpaces(m1) { assert m1.value != []; }
        if !IsEmptyOrSpaces(m2) { assert m2.value != []; }
      }
    }
  }

  /** The same holds for the don't-ask keys. */
  lemma DontAskKeyInjective(m1: Option<string>, m2: Option<string>)
    ensures DontAskKey(m1) == DontAskKey(m2) <==>
              (IsEmptyOrSpaces(m1) && IsEmptyOrSpaces(m2))
              || (!IsEmptyOrSpaces(m1) && !IsEmptyOrSpaces(m2) && m1.value == m2.value)
  {
    if !IsEmptyOrSpaces(m1) && !IsEmptyOrSpaces(m2) && DontAskKey(m1) == DontAskKey(m2) {
      SuffixCancel(m1.value, m2.value, ".dontask");
    }
    if IsEmptyOrSpaces(m1) != IsEmptyOrSpaces(m2) {
      assert |DontAskKey(m1)| != |DontAskKey(m2)| by {
        if !IsEmptyOrSpaces(m1) { assert m1.value != []; }
        if !IsEmptyOrSpaces(m2) { assert m2.value != []; }
      }
    }
  }

  // ---- What the operations do to the contents ----

  /** `map.get` on a map whose values may be null: absent and null both read as null. */
  function Lookup<V>(m: map<string, Option<V>>, key: string): Option<V> {
    if key in m then m[key] else None
  }

  /** The remembered arguments of a method key. */
  function ArgsOf(s: StateValue, key: string): Option<seq<string>> {
    Lookup(s.methodArgs, key)
  }

  /** The method-argument map after remembering `args` under `key`. */
  function PutArgs(s: StateValue, key: string, args: Option<seq<string>>): StateValue {
    s.(methodArgs := (if |s.methodArgs| >= MaxCacheEntry then map[] else s.methodArgs)[key := args])
  }

  /** `trim` applied to a string that may be null. */
  function TrimNullable(v: Option<string>): Option<string> {
    match v
    case None => None
    case Some(x) => Some(Trim(x))
  }

  /** The stored deploy arguments of a moduleName. */
  function DeployArgsOf(s: StateValue, moduleName: Option<string>): Option<string> {
    Lookup(s.deployArgs, DeployArgsKey(moduleName))
  }

  /** The contents after storing trimmed deploy arguments for a moduleName. */
  function PutDeployArgs(s: StateValue, moduleName: Option<string>, deployArgs: Option<string>): StateValue {
    s.(deployArgs := s.deployArgs[DeployArgsKey(moduleName) := TrimNullable(deployArgs)])
  }

  /** Whether the deploy-arguments prompt is switched off for a moduleName. */
  predicate ShouldNotAskOf(s: StateValue, moduleName: Option<string>) {
    var dontAsk := Lookup(s.deployArgs, DontAskKey(moduleName));
    dontAsk.Some? && ParseBoolean(dontAsk.value)
  }

  /** The contents after storing a stringified don't-ask flag for a moduleName. */
  function PutShouldNotAsk(s: StateValue, moduleName: Option<string>, flag: bool): StateValue {
    s.(deployArgs := s.deployArgs[DontAskKey(moduleName) := Some(BooleanToString(flag))])
  }

  /** `getAllDeployArgsWithModuleName`: the entries whose key ends with "args" and whose value
      is neither null nor blank. */
  function AllDeployArgsWithModuleName(s: StateValue): (r: map<string, string>)
    ensures forall k :: k in r <==>
              k in s.deployArgs && EndsWith(k, "args") && !IsEmptyOrSpaces(s.deployArgs[k])
    ensures forall k :: k in r ==> s.deployArgs[k] == Some(r[k])
  {
    var d := s.deployArgs;
    if |d| == 0 then map[]
    else map k | k in d && EndsWith(k, "args") && !IsEmptyOrSpaces(d[k]) :: d[k].value
  }

  /** One `add*ContractAddress` step: poll the oldest entry when more than ten are held,
      then append the address unless the (reversed) listing already contains it. */
  function AddRecent(q: seq<string>, address: string): seq<string> {
    var polled := if |q| > AddressPollThreshold then q[1..] else q;
    if address in Reversed(polled) then polled else polled + [address]
  }

  /** Several addresses added in order. */
  function AddAllRecent(q: seq<string>, addresses: seq<string>): seq<string>
    decreases |addresses|
  {
    if addresses == [] then q
    else AddRecent(AddAllRecent(q, addresses[..|addresses| - 1]), addresses[|addresses| - 1])
  }

  /** The bounds and the absence of duplicates that the cache's own updates maintain. */
  predicate WellBounded(s: StateValue) {
    |s.methodArgs| <= MaxCacheEntry
    && |s.localContractAddresses| <= AddressPollThreshold + 1
    && |s.remoteContractAddresses| <= AddressPollThreshold + 1
    && Distinct(s.localContractAddresses)
    && Distinct(s.remoteContractAddresses)
  }

  // ---- Method arguments ----

  /** What was remembered last for a key is read back. */
  lemma ArgsReadAfterWrite(s: StateValue, key: string, args: Option<seq<string>>)
    ensures ArgsOf(PutArgs(s, key, args), key) == args
  {
  }

  /** Nothing is remembered in a fresh state. */
  lemma ArgsOfEmpty(key: string)
    ensures ArgsOf(EmptyState, key) == None
  {
  }

  /** After any insert the map holds at most 30 entries; when it held 30 or more before,
      only the new entry is left, even if its key was present; otherwise the other entries,
      and everything else in the state, are kept. */
  lemma PutArgsBounded(s: StateValue, key: string, args: Option<seq<string>>)
    ensures |PutArgs(s, key, args).methodArgs| <= MaxCacheEntry
    ensures |s.methodArgs| >= MaxCacheEntry ==> PutArgs(s, key, args).methodArgs == map[key := args]
    ensures |s.methodArgs| < MaxCacheEntry ==>
              forall k :: k != key ==> ArgsOf(PutArgs(s, key, args), k) == ArgsOf(s, k)
    ensures PutArgs(s, key, args).deployArgs == s.deployArgs
    ensures PutArgs(s, key, args).localContractAddresses == s.localContractAddresses
    ensures PutArgs(s, key, args).remoteContractAddresses == s.remoteContractAddresses
  {
    var m := if |s.methodArgs| >= MaxCacheEntry then map[] else s.methodArgs;
    assert m[key := args].Keys == m.Keys + {key};
    assert |m.Keys + {key}| <= |m.Keys| + 1;
  }

  /** With 30 entries stored, a 31st insert forgets every earlier key. */
  lemma OverflowForgetsEarlierKeys(s: StateValue, key: string, args: Option<seq<string>>, earlierKey: string)
    requires |s.methodArgs| == MaxCacheEntry && earlierKey != key
    ensures ArgsOf(PutArgs(s, key, args), earlierKey) == None
  {
  }

  // ---- Deploy arguments and the don't-ask flag ----

  /** The value stored for a module is the trimmed input (null stays null), and it is read back. */
  lemma DeployArgsReadAfterWrite(s: StateValue, moduleName: Option<string>, deployArgs: Option<string>)
    ensures DeployArgsOf(PutDeployArgs(s, moduleName, deployArgs), moduleName) == TrimNullable(deployArgs)
    ensures PutDeployArgs(s, moduleName, deployArgs).methodArgs == s.methodArgs
  {
  }

  /** Storing deploy arguments keeps every other module's arguments. */
  lemma PutDeployArgsKeepsOthers(s: StateValue, moduleName: Option<string>, deployArgs: Option<string>,
                                 other: Option<string>)
    requires DeployArgsKey(other) != DeployArgsKey(moduleName)
    ensures DeployArgsOf(PutDeployArgs(s, moduleName, deployArgs), other) == DeployArgsOf(s, other)
  {
  }

  /** Storing deploy arguments keeps every module's don't-ask flag. */
  lemma PutDeployArgsKeepsFlags(s: StateValue, moduleName: Option<string>, deployArgs: Option<string>,
                                other: Option<string>)
    ensures ShouldNotAskOf(PutDeployArgs(s, moduleName, deployArgs), other) == ShouldNotAskOf(s, other)
  {
    KeyFamiliesDisjoint(moduleName, other);
    var s' := PutDeployArgs(s, moduleName, deployArgs);
    assert Lookup(s'.deployArgs, DontAskKey(other)) == Lookup(s.deployArgs, DontAskKey(other));
  }

  /** Storing under a blank module and reading under null (or any blank name) meet at "args". */
  lemma BlankModulesShareDeployArgs(s: StateValue, m1: Option<string>, m2: Option<string>, v: string)
    requires IsEmptyOrSpaces(m1) && IsEmptyOrSpaces(m2)
    ensures DeployArgsOf(PutDeployArgs(s, m1, Some(v)), m2) == Some(Trim(v))
    ensures PutDeployArgs(s, m1, Some(v)).deployArgs["args"] == Some(Trim(v))
  {
  }

  /** Without a stored flag the prompt is shown. */
  lemma ShouldNotAskDefault(s: StateValue, moduleName: Option<string>)
    requires DontAskKey(moduleName) !in s.deployArgs
    ensures !ShouldNotAskOf(s, moduleName)
  {
  }

  /** The flag that was set is read back. */
  lemma ShouldNotAskReadAfterWrite(s: StateValue, moduleName: Option<string>, flag: bool)
    ensures ShouldNotAskOf(PutShouldNotAsk(s, moduleName, flag), moduleName) == flag
  {
    ParseBooleanToString(flag);
    assert Lookup(PutShouldNotAsk(s, moduleName, flag).deployArgs, DontAskKey(moduleName))
           == Some(BooleanToString(flag));
  }

  /** Setting a flag leaves every module's deploy arguments as they were. */
  lemma PutShouldNotAskKeepsDeployArgs(s: StateValue, moduleName: Option<string>, flag: bool,
                                       other: Option<string>)
    ensures DeployArgsOf(PutShouldNotAsk(s, moduleName, flag), other) == DeployArgsOf(s, other)
  {
    KeyFamiliesDisjoint(other, moduleName);
  }

  /** Setting a flag leaves the listing of deploy arguments as it was. */
  lemma PutShouldNotAskKeepsListing(s: StateValue, moduleName: Option<string>, flag: bool)
    ensures AllDeployArgsWithModuleName(PutShouldNotAsk(s, moduleName, flag)) == AllDeployArgsWithModuleName(s)
  {
    var before := AllDeployArgsWithModuleName(s);
    var after := AllDeployArgsWithModuleName(PutShouldNotAsk(s, moduleName, flag));
    assert DontAskKey(moduleName) !in after;
    assert forall k :: k in after <==> k in before;
  }

  /** A don't-ask entry never appears among the listed deploy arguments. */
  lemma DontAskNeverListed(s: StateValue, moduleName: Option<string>)
    ensures DontAskKey(moduleName) !in AllDeployArgsWithModuleName(s)
  {
  }

  /** Non-blank deploy arguments are listed, trimmed, under their module's key. */
  lemma PutDeployArgsListed(s: StateValue, moduleName: Option<string>, deployArgs: string)
    requires !IsBlank(deployArgs)
    ensures var listed := AllDeployArgsWithModuleName(PutDeployArgs(s, moduleName, Some(deployArgs)));
            DeployArgsKey(moduleName) in listed && listed[DeployArgsKey(moduleName)] == Trim(deployArgs)
  {
    var t := Trim(deployArgs);
    TrimEmptyIffBlank(deployArgs);
    TrimEnds(deployArgs);
    assert !IsBlank(t) by { assert !IsTrimmable(t[0]); }
    var s' := PutDeployArgs(s, moduleName, Some(deployArgs));
    var key := DeployArgsKey(moduleName);
    assert s'.deployArgs[key] == Some(t);
    assert key in AllDeployArgsWithModuleName(s');
  }

  /** Blank or null deploy arguments are stored but not listed. */
  lemma PutBlankDeployArgsNotListed(s: StateValue, moduleName: Option<string>, deployArgs: Option<string>)
    requires IsEmptyOrSpaces(deployArgs)
    ensures DeployArgsKey(moduleName) !in AllDeployArgsWithModuleName(PutDeployArgs(s, moduleName, deployArgs))
  {
    if deployArgs.Some? {
      TrimEmptyIffBlank(deployArgs.value);
      assert Trim(deployArgs.value) == [];
    }
    var s' := PutDeployArgs(s, moduleName, deployArgs);
    assert IsEmptyOrSpaces(s'.deployArgs[DeployArgsKey(moduleName)]);
  }

  // ---- Contract addresses ----

  /** The added address is always in the list afterwards. */
  lemma AddRecentContains(q: seq<string>, address: string)
    ensures address in AddRecent(q, address)
  {
    var polled := if |q| > AddressPollThreshold then q[1..] else q;
    ReversedSameElements(polled, address);
  }

  /** A duplicate-free list stays duplicate-free. */
  lemma AddRecentDistinct(q: seq<string>, address: string)
    requires Distinct(q)
    ensures Distinct(AddRecent(q, address))
  {
    var polled := if |q| > AddressPollThreshold then q[1..] else q;
    ReversedSameElements(polled, address);
  }

  /** An address already present in a list of at most ten entries changes nothing. */
  lemma AddRecentPresent(q: seq<string>, address: string)
    requires address in q && |q| <= AddressPollThreshold
    ensures AddRecent(q, address) == q
  {
    ReversedSameElements(q, address);
  }

  /** A new address goes to the end, after at most the oldest entry was dropped, so the
      listing shows it first; the list never grows beyond eleven, or beyond its old size. */
  lemma AddRecentShape(q: seq<string>, address: string)
    ensures var polled := if |q| > AddressPollThreshold then q[1..] else q;
            AddRecent(q, address) == (if address in polled then polled else polled + [address])
    ensures |AddRecent(q, address)| <= if |q| > AddressPollThreshold + 1 then |q| else AddressPollThreshold + 1
    ensures address !in q ==> Reversed(AddRecent(q, address))[0] == address
  {
    var polled := if |q| > AddressPollThreshold then q[1..] else q;
    ReversedSameElements(polled, address);
    if address !in q {
      assert address !in polled;
      ReversedFirst(polled + [address]);
    }
  }

  /** A list of ten distinct addresses grows to ELEVEN when a new address is added. */
  lemma AddRecentReachesEleven(q: seq<string>, address: string)
    requires |q| == AddressPollThreshold && address !in q
    ensures |AddRecent(q, address)| == AddressPollThreshold + 1
  {
    AddRecentShape(q, address);
  }

  /** Adding distinct new addresses one after another keeps all of them while there are at most eleven. */
  lemma {:induction false} AddAllRecentKeepsUpToEleven(addresses: seq<string>)
    requires Distinct(addresses) && |addresses| <= AddressPollThreshold + 1
    ensures AddAllRecent([], addresses) == addresses
    decreases |addresses|
  {
    if addresses != [] {
      var init := addresses[..|addresses| - 1];
      var last := addresses[|addresses| - 1];
      assert Distinct(init) by {
        forall i, j | 0 <= i < j < |init| ensures init[i] != init[j] {
          assert init[i] == addresses[i] && init[j] == addresses[j];
        }
      }
      AddAllRecentKeepsUpToEleven(init);
      assert AddAllRecent([], addresses) == AddRecent(init, last);
      assert last !in init by {
        forall i | 0 <= i < |init| ensures init[i] != last {
          assert init[i] == addresses[i];
        }
      }
      ReversedSameElements(init, last);
      assert init + [last] == addresses;
    }
  }

  /** Twelve distinct addresses leave eleven entries: only the oldest is gone. */
  lemma TwelveAddressesKeepEleven(addresses: seq<string>)
    requires Distinct(addresses) && |addresses| == AddressPollThreshold + 2
    ensures AddAllRecent([], addresses) == addresses[1..]
    ensures |AddAllRecent([], addresses)| == AddressPollThreshold + 1
  {
    var init := addresses[..|addresses| - 1];
    var last := addresses[|addresses| - 1];
    assert Distinct(init);
    AddAllRecentKeepsUpToEleven(init);
    assert last !in init[1..];
    AddRecentShape(init, last);
    assert init[1..] + [last] == addresses[1..];
  }

  /** Adding the same address twice leaves it in the list, once. */
  lemma AddTwiceOnce(q: seq<string>, address: string)
    requires Distinct(q)
    ensures var r := AddRecent(AddRecent(q, address), address);
            address in r && Distinct(r)
  {
    AddRecentDistinct(q, address);
    AddRecentDistinct(AddRecent(q, address), address);
    AddRecentContains(AddRecent(q, address), address);
  }

  // ---- The invariant ----

  lemma EmptyStateWellBounded()
    ensures WellBounded(EmptyState)
  {
  }

  /** Every update the cache performs keeps the bounds and the absence of duplicates. */
  lemma UpdatesPreserveWellBounded(s: StateValue, key: string, args: Option<seq<string>>,
                                   moduleName: Option<string>, deployArgs: Option<string>, flag: bool,
                                   address: string)
    requires WellBounded(s)
    ensures WellBounded(PutArgs(s, key, args))
    ensures WellBounded(PutDeployArgs(s, moduleName, deployArgs))
    ensures WellBounded(PutShouldNotAsk(s, moduleName, flag))
    ensures WellBounded(s.(localContractAddresses := AddRecent(s.localContractAddresses, address)))
    ensures WellBounded(s.(remoteContractAddresses := AddRecent(s.remoteContractAddresses, address)))
  {
    PutArgsBounded(s, key, args);
    AddRecentShape(s.localContractAddresses, address);
    AddRecentShape(s.remoteContractAddresses, address);
    AddRecentDistinct(s.localContractAddresses, address);
    AddRecentDistinct(s.remoteContractAddresses, address);
  }

  // ---- The mutable objects ----

  /** `AvmCacheService.State`: the persisted record, its collections updated in place. */
  class State {
    var methodArgs: map<string, Option<seq<string>>>
    var deployArgs: map<string, Option<string>>
    var localContractAddresses: seq<string>
    var remoteContractAddresses: seq<string>

    function Value(): StateValue
      reads this
    {
      StateValue(methodArgs, deployArgs, localContractAddresses, remoteContractAddresses)
    }

    constructor ()
      ensures Value() == EmptyState
    {
      methodArgs := map[];
      deployArgs := map[];
      localContractAddresses := [];
      remoteContractAddresses := [];
    }
  }

  /** The cache service: a possibly-null reference to the current `State`. */
  class AvmCacheService {
    var state: State?

    constructor ()
      ensures state == null
    {
      state := null;
    }

    /** The contents `getState()` exposes: an empty state while none is stored. */
    function Current(): StateValue
      reads this, state
    {
      if state == null then EmptyState else state.Value()
    }

    /** `getState`: the stored state, or a fresh empty one that is NOT stored. */
    method GetState() returns (s: State)
      ensures state == null ==> fresh(s) && s.Value() == EmptyState
      ensures state != null ==> s == state
    {
      if state == null {
        s := new State();
      } else {
        s := state;
      }
    }

    /** `getArgsFromCache`. */
    method GetArgsFromCache(name: string, paramTypes: seq<string>) returns (args: Option<seq<string>>)
      ensures args == ArgsOf(Current(), MethodKey(name, paramTypes))
    {
      var encMethod := EncodeMethod(name, paramTypes);
      var s := GetState();
      args := if encMethod in s.methodArgs then s.methodArgs[encMethod] else None;
    }

    /** `updateArgsToCache`: stores a state if there is none, clears a full map, then puts. */
    method UpdateArgsToCache(name: string, paramTypes: seq<string>, args: Option<seq<string>>)
      modifies this, state
      ensures state != null && (old(state) == null ==> fresh(state)) && (old(state) != null ==> state == old(state))
      ensures Current() == PutArgs(old(Current()), MethodKey(name, paramTypes), args)
      ensures old(WellBounded(Current())) ==> WellBounded(Current())
    {
      ghost var before := Current();
      var encMethod := EncodeMethod(name, paramTypes);
      if state == null {
        state := GetState();
      }
      if |state.methodArgs| >= MaxCacheEntry {
        state.methodArgs := map[];
      }
      state.methodArgs := state.methodArgs[encMethod := args];
      PutArgsBounded(before, encMethod, args);
    }

    /** `getDeployArgs`. */
    method GetDeployArgs(moduleName: Option<string>) returns (deployArgs: Option<string>)
      ensures deployArgs == DeployArgsOf(Current(), moduleName)
    {
      var s := GetState();
      var key := DeployArgsKey(moduleName);
      deployArgs := if key in s.deployArgs then s.deployArgs[key] else None;
    }

    /** `updateDeployArgs`: stores the trimmed arguments under the module's key. */
    method UpdateDeployArgs(moduleName: Option<string>, deployArgs: Option<string>)
      modifies this, state
      ensures state != null && (old(state) == null ==> fresh(state)) && (old(state) != null ==> state == old(state))
      ensures Current() == PutDeployArgs(old(Current()), moduleName, deployArgs)
      ensures old(WellBounded(Current())) ==> WellBounded(Current())
    {
      ghost var before := Current();
      if state == null {
        state := GetState();
      }
      assert state.Value() == before;
      var value := deployArgs;
      if value.Some? {
        value := Some(Trim(value.value));
      }
      assert value == TrimNullable(deployArgs);
      var key := DeployArgsKey(moduleName);
      state.deployArgs := state.deployArgs[key := value];
      assert state.Value() == before.(deployArgs := before.deployArgs[key := value]);
    }

    /** `shouldNotAskDeployArgs`. */
    method ShouldNotAskDeployArgs(moduleName: Option<string>) returns (dontAskAgain: bool)
      ensures dontAskAgain == ShouldNotAskOf(Current(), moduleName)
    {
      var s := GetState();
      var key := DontAskKey(moduleName);
      var dontAsk := if key in s.deployArgs then s.deployArgs[key] else None;
      dontAskAgain := if dontAsk.Some? then ParseBoolean(dontAsk.value) else false;
    }

    /** `setShouldNotAskDeployArgs`: stores the flag as "true" or "false". */
    method SetShouldNotAskDeployArgs(moduleName: Option<string>, flag: bool)
      modifies this, state
      ensures state != null && (old(state) == null ==> fresh(state)) && (old(state) != null ==> state == old(state))
      ensures Current() == PutShouldNotAsk(old(Current()), moduleName, flag)
      ensures old(WellBounded(Current())) ==> WellBounded(Current())
    {
      if state == null {
        state := GetState();
      }
      state.deployArgs := state.deployArgs[DontAskKey(moduleName) := Some(BooleanToString(flag))];
    }

    /** `getAllDeployArgsWithModuleName`. */
    method GetAllDeployArgsWithModuleName() returns (r: map<string, string>)
      ensures r == AllDeployArgsWithModuleName(Current())
    {
      var s := GetState();
      r := AllDeployArgsWithModuleName(s.Value());
    }

    /** `getLocalContractAddresses`: a reversed copy, most recent first. */
    method GetLocalContractAddresses() returns (r: seq<string>)
      ensures var q := Current().localContractAddresses;
              |r| == |q| && forall i :: 0 <= i < |r| ==> r[i] == q[|q| - 1 - i]
    {
      var s := GetState();
      r := Reversed(s.localContractAddresses);
    }

    /** `getRemoteContractAddresses`: a reversed copy, most recent first. */
    method GetRemoteContractAddresses() returns (r: seq<string>)
      ensures var q := Current().remoteContractAddresses;
              |r| == |q| && forall i :: 0 <= i < |r| ==> r[i] == q[|q| - 1 - i]
    {
      var s := GetState();
      r := Reversed(s.remoteContractAddresses);
    }

    /** `addLocalContractAddress`. */
    method AddLocalContractAddress(address: string)
      modifies this, state
      ensures state != null && (old(state) == null ==> fresh(state)) && (old(state) != null ==> state == old(state))
      ensures Current() == old(Current()).(localContractAddresses := AddRecent(old(Current()).localContractAddresses, address))
      ensures old(WellBounded(Current())) ==> WellBounded(Current())
    {
      ghost var before := Current();
      if state == null {
        state := GetState();
      }
      assert state.Value() == before;
      if |state.localContractAddresses| > AddressPollThreshold {
        state.localContractAddresses := state.localContractAddresses[1..];
      }
      var contractAddresses := GetLocalContractAddresses();
      assert contractAddresses == Reversed(state.localContractAddresses);
      if address !in contractAddresses {
        state.localContractAddresses := state.localContractAddresses + [address];
      }
      assert state.localContractAddresses == AddRecent(before.localContractAddresses, address);
      assert state.Value() == before.(localContractAddresses := AddRecent(before.localContractAddresses, address));
      if WellBounded(before) {
        AddRecentShape(before.localContractAddresses, address);
        AddRecentDistinct(before.localContractAddresses, address);
      }
    }

    /** `addRemoteContractAddress`. */
    method AddRemoteContractAddress(address: string)
      modifies this, state
      ensures state != null && (old(state) == null ==> fresh(state)) && (old(state) != null ==> state == old(state))
      ensures Current() == old(Current()).(remoteContractAddresses := AddRecent(old(Current()).remoteContractAddresses, address))
      ensures old(WellBounded(Current())) ==> WellBounded(Current())
    {
      ghost var before := Current();
      if state == null {
        state := GetState();
      }
      assert state.Value() == before;
      if |state.remoteContractAddresses| > AddressPollThreshold {
        state.remoteContractAddresses := state.remoteContractAddresses[1..];
      }
      var contractAddresses := GetRemoteContractAddresses();
      assert contractAddresses == Reversed(state.remoteContractAddresses);
      if address !in contractAddresses {
        state.remoteContractAddresses := state.remoteContractAddresses + [address];
      }
      assert state.remoteContractAddresses == AddRecent(before.remoteContractAddresses, address);
      assert state.Value() == before.(remoteContractAddresses := AddRecent(before.remoteContractAddresses, address));
      if WellBounded(before) {
        AddRecentShape(before.remoteContractAddresses, address);
        AddRecentDistinct(before.remoteContractAddresses, address);
      }
    }

    /** `loadState`: the given state replaces the current one wholesale. */
    method LoadState(s: State?)
      modifies this
      ensures state == s
      ensures Current() == (if s == null then EmptyState else s.Value())
    {
      state := s;
    }
  }
}
