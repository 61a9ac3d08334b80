/**
 * The allow-list policy of the AVM inspection: which referenced types and which called
 * methods an AVM smart contract may use. Symbol resolution is taken as already done:
 * types arrive as their canonical text, a call as its owner class, name and parameter
 * types (or as a resolution failure). The allow-list store is a predicate on class names
 * and a function giving the allowed descriptors of a method of a class.
 */
module JCLWhitelistInspection {
  import opened Optional
  import opened JavaText

  const UserlibPackagePrefix: string := "org.aion.avm.userlib"
  const AvmApiPackagePrefix: string := "org.aion.avm.api"

  /** Names in the AVM's own user library and API are never checked. */
  predicate IsExemptName(name: string)
    ensures IsExemptName(name) ==> StartsWith(name, "org.aion.avm.")
  {
    StartsWith(name, UserlibPackagePrefix) || StartsWith(name, AvmApiPackagePrefix)
  }

  /** The type of a field or local variable: a class type, or anything else (primitive, array, ...). */
  datatype PsiType = ClassType(canonicalText: string) | OtherType(canonicalText: string)

  /** Only class types are checked against the allow-list. */
  predicate IsCheckedType(t: PsiType) {
    t.ClassType?
  }

  /** The two kinds of declaration whose type is inspected. */
  datatype Declaration = Field(fieldType: PsiType) | LocalVariable(variableType: PsiType)
  {
    function DeclaredType(): PsiType {
      match this
      case Field(t) => t
      case LocalVariable(t) => t
    }
  }

  /** A problem registered by the inspection. */
  datatype Problem =
    | NotAllowed(typeName: string)                          // "<type> is not allowed ..."
    | MethodNotAllowed(className: string, methodName: string) // "<class>.<method> is not allowed ..."

  /** An allow-listed overload: the method name and its parameter types' canonical text. */
  datatype MethodDescriptor = MethodDescriptor(name: string, params: seq<string>)

  /** A call whose target method and owner class were resolved. */
  datatype ResolvedCall = ResolvedCall(className: string, methodName: string, paramTypes: seq<string>)

  /** The problems `visitField` / `visitLocalVariable` register for a declaration. */
  function DeclarationProblems(d: Declaration, isClassAllowed: string -> bool): (r: seq<Problem>)
    ensures |r| <= 1
    ensures forall p :: p in r ==> p == NotAllowed(d.DeclaredType().canonicalText)
    ensures r != [] ==> IsCheckedType(d.DeclaredType()) && !IsExemptName(d.DeclaredType().canonicalText)
  {
    var t := d.DeclaredType();
    if !IsCheckedType(t) then []
    else if IsExemptName(t.canonicalText) then []
    else if !isClassAllowed(t.canonicalText) then [NotAllowed(t.canonicalText)]
    else []
  }

  /**
   * When one descriptor lets a call with the given parameter types through, as the loop
   * in `visitMethodCallExpression` decides it: both parameter lists empty, or the same
   * arity and equal type names at SOME position (not necessarily at every position).
   */
  predicate DescriptorMatches(d: MethodDescriptor, paramTypes: seq<string>) {
    (|d.params| == 0 && |paramTypes| == 0)
    || (|d.params| == |paramTypes| && exists i :: 0 <= i < |paramTypes| && d.params[i] == paramTypes[i])
  }

  /** The call is allowed when some descriptor matches it. */
  predicate AnyDescriptorMatches(descriptors: seq<MethodDescriptor>, paramTypes: seq<string>) {
    exists k :: 0 <= k < |descriptors| && DescriptorMatches(descriptors[k], paramTypes)
  }

  /** Full positional equality: the stricter reading of an allow-listed signature. */
  predicate StrictlyMatches(d: MethodDescriptor, paramTypes: seq<string>) {
    d.params == paramTypes
  }

  /**
   * The descriptor loop: an outer loop over the descriptors and an inner indexed loop over
   * the parameters, leaving through `break` as soon as the flag is set.
   */
  method IsMethodAllowed(descriptors: seq<MethodDescriptor>, paramTypes: seq<string>) returns (isAllowed: bool)
    ensures isAllowed <==> AnyDescriptorMatches(descriptors, paramTypes)
  {
    isAllowed := false;
    var k := 0;
    while k < |descriptors|
      invariant 0 <= k <= |descriptors|
      invariant !isAllowed
      invariant forall k' :: 0 <= k' < k ==> !DescriptorMatches(descriptors[k'], paramTypes)
    {
      var d := descriptors[k];
      if |d.params| == 0 && |paramTypes| == 0 {
        isAllowed := true;
        break;
      }
      if |d.params| != |paramTypes| {
        k := k + 1;
        continue;
      }
      var i := 0;
      while i < |d.params|
        invariant 0 <= i <= |d.params|
        invariant !isAllowed
        invariant forall i' :: 0 <= i' < i ==> d.params[i'] != paramTypes[i']
      {
        if d.params[i] == paramTypes[i] {
          isAllowed := true;
          break;
        }
        i := i + 1;
      }
      if isAllowed {
        break;
      }
      k := k + 1;
    }
  }

  /**
   * The problems `visitMethodCallExpression` registers for one call. `None` is a call
   * whose target could not be resolved (an exception, or a null owner class name).
   */
  function CallProblems(call: Option<ResolvedCall>, isClassAllowed: string -> bool,
                        allowedMethods: (string, string) -> seq<MethodDescriptor>): seq<Problem>
  {
    match call
    case None => []
    case Some(c) =>
      if IsExemptName(c.className) then []
      else
        (if !isClassAllowed(c.className) then [NotAllowed(c.className)] else [])
        + (if !AnyDescriptorMatches(allowedMethods(c.className, c.methodName), c.paramTypes)
           then [MethodNotAllowed(c.className, c.methodName)] else [])
  }

  /** `visitMethodCallExpression`: the class check, then the descriptor loop. */
  method VisitMethodCall(call: Option<ResolvedCall>, isClassAllowed: string -> bool,
                         allowedMethods: (string, string) -> seq<MethodDescriptor>)
    returns (problems: seq<Problem>)
    ensures problems == CallProblems(call, isClassAllowed, allowedMethods)
  {
    problems := [];
    if call.None? {
      return;
    }
    var c := call.value;
    if IsExemptName(c.className) {
      return;
    }
    if !isClassAllowed(c.className) {
      problems := problems + [NotAllowed(c.className)];
    }
    var descriptors := allowedMethods(c.className, c.methodName);
    var isAllowed := IsMethodAllowed(descriptors, c.paramTypes);
    if !isAllowed {
      problems := problems + [MethodNotAllowed(c.className, c.methodName)];
    }
  }

  // ---- Properties of the policy ----

  /** A field or local variable of an exempt type is never reported. */
  lemma ExemptDeclarationNeverReported(d: Declaration, isClassAllowed: string -> bool)
    requires IsExemptName(d.DeclaredType().canonicalText)
    ensures DeclarationProblems(d, isClassAllowed) == []
  {
  }

  /** A field or local variable whose type is not a class type is never reported. */
  lemma NonClassDeclarationNeverReported(d: Declaration, isClassAllowed: string -> bool)
    requires !IsCheckedType(d.DeclaredType())
    ensures DeclarationProblems(d, isClassAllowed) == []
  {
  }

  /** A declaration is reported, once and with its type name, exactly when its class type is
      neither exempt nor allowed. */
  lemma DeclarationReportedIff(d: Declaration, isClassAllowed: string -> bool)
    ensures |DeclarationProblems(d, isClassAllowed)| <= 1
    ensures DeclarationProblems(d, isClassAllowed) != [] <==>
              d.DeclaredType().ClassType? && !IsExemptName(d.DeclaredType().canonicalText)
              && !isClassAllowed(d.DeclaredType().canonicalText)
    ensures DeclarationProblems(d, isClassAllowed) != [] ==>
              DeclarationProblems(d, isClassAllowed) == [NotAllowed(d.DeclaredType().canonicalText)]
  {
  }

  /** A call on an exempt owner class is never reported, whatever the allow-list says. */
  lemma ExemptCallNeverReported(c: ResolvedCall, isClassAllowed: string -> bool,
                                allowedMethods: (string, string) -> seq<MethodDescriptor>)
    requires IsExemptName(c.className)
    ensures CallProblems(Some(c), isClassAllowed, allowedMethods) == []
  {
  }

  /** A call whose target cannot be resolved is never reported. */
  lemma UnresolvedCallNeverReported(isClassAllowed: string -> bool,
                                    allowedMethods: (string, string) -> seq<MethodDescriptor>)
    ensures CallProblems(None, isClassAllowed, allowedMethods) == []
  {
  }

  /** A zero-parameter call is allowed as soon as some descriptor has no parameters. */
  lemma ZeroArityCallAllowed(descriptors: seq<MethodDescriptor>, k: nat)
    requires k < |descriptors| && descriptors[k].params == []
    ensures AnyDescriptorMatches(descriptors, [])
  {
    assert DescriptorMatches(descriptors[k], []);
  }

  /** A descriptor of another arity never matches. */
  lemma ArityMismatchNeverMatches(d: MethodDescriptor, paramTypes: seq<string>)
    requires |d.params| != |paramTypes|
    ensures !DescriptorMatches(d, paramTypes)
  {
  }

  /** Descriptors of another arity can be dropped without changing the verdict. */
  lemma {:induction false} OnlySameArityCounts(descriptors: seq<MethodDescriptor>, d: MethodDescriptor,
                                               paramTypes: seq<string>)
    requires |d.params| != |paramTypes|
    ensures AnyDescriptorMatches(descriptors + [d], paramTypes) <==> AnyDescriptorMatches(descriptors, paramTypes)
  {
    var all := descriptors + [d];
    if AnyDescriptorMatches(all, paramTypes) {
      var k :| 0 <= k < |all| && DescriptorMatches(all[k], paramTypes);
      assert k < |descriptors| && descriptors[k] == all[k];
    }
    if AnyDescriptorMatches(descriptors, paramTypes) {
      var k :| 0 <= k < |descriptors| && DescriptorMatches(descriptors[k], paramTypes);
      assert all[k] == descriptors[k];
    }
  }

  /** A same-arity, non-empty descriptor matches iff one position carries equal type names. */
  lemma SameArityMatchIff(d: MethodDescriptor, paramTypes: seq<string>)
    requires |d.params| == |paramTypes| > 0
    ensures DescriptorMatches(d, paramTypes) <==> exists i :: 0 <= i < |paramTypes| && d.params[i] == paramTypes[i]
  {
  }

  /** Every strictly matching descriptor matches. */
  lemma StrictMatchImpliesMatch(d: MethodDescriptor, paramTypes: seq<string>)
    requires StrictlyMatches(d, paramTypes)
    ensures DescriptorMatches(d, paramTypes)
  {
    if paramTypes != [] {
      assert d.params[0] == paramTypes[0];
    }
  }

  /** The converse fails: one equal position lets a call through whose other parameters differ. */
  lemma MatchDoesNotImplyStrictMatch()
    ensures DescriptorMatches(MethodDescriptor("put", ["int", "long"]), ["int", "java.lang.String"])
    ensures !StrictlyMatches(MethodDescriptor("put", ["int", "long"]), ["int", "java.lang.String"])
  {
    var d := MethodDescriptor("put", ["int", "long"]);
    var ps := ["int", "java.lang.String"];
    assert d.params[0] == ps[0];
    assert d.params[1] != ps[1] by { assert d.params[1][0] != ps[1][0]; }
  }

  /** The method problem is registered exactly when no descriptor matches; in particular
      an empty descriptor list always yields it. */
  lemma MethodReportedIff(c: ResolvedCall, isClassAllowed: string -> bool,
                          allowedMethods: (string, string) -> seq<MethodDescriptor>)
    requires !IsExemptName(c.className)
    ensures MethodNotAllowed(c.className, c.methodName) in CallProblems(Some(c), isClassAllowed, allowedMethods)
            <==> !AnyDescriptorMatches(allowedMethods(c.className, c.methodName), c.paramTypes)
    ensures allowedMethods(c.className, c.methodName) == [] ==>
              MethodNotAllowed(c.className, c.methodName) in CallProblems(Some(c), isClassAllowed, allowedMethods)
  {
  }

  /** The class problem is registered exactly when the owner class is not allowed, whatever
      the descriptors say: the two checks are independent and may both fire. */
  lemma ClassReportedIff(c: ResolvedCall, isClassAllowed: string -> bool,
                         allowedMethods: (string, string) -> seq<MethodDescriptor>)
    requires !IsExemptName(c.className)
    ensures NotAllowed(c.className) in CallProblems(Some(c), isClassAllowed, allowedMethods)
            <==> !isClassAllowed(c.className)
    ensures !isClassAllowed(c.className) && !AnyDescriptorMatches(allowedMethods(c.className, c.methodName), c.paramTypes)
            ==> CallProblems(Some(c), isClassAllowed, allowedMethods)
                == [NotAllowed(c.className), MethodNotAllowed(c.className, c.methodName)]
  {
  }

  /** A one-parameter descriptor matches a one-parameter call of the same type. */
  lemma OneParamMatch(descriptors: seq<MethodDescriptor>, t: string)
    requires |descriptors| > 0 && descriptors[0].params == [t]
    ensures AnyDescriptorMatches(descriptors, [t])
  {
    assert descriptors[0].params[0] == [t][0];
    assert DescriptorMatches(descriptors[0], [t]);
  }

  /** With `bar(int)` allow-listed on `pkg.Foo`, `bar(int)` passes and `bar(int, int)` is reported. */
  lemma SingleOverloadScenario(isClassAllowed: string -> bool,
                               allowedMethods: (string, string) -> seq<MethodDescriptor>)
    requires isClassAllowed("pkg.Foo")
    requires allowedMethods("pkg.Foo", "bar") == [MethodDescriptor("bar", ["int"])]
    ensures CallProblems(Some(ResolvedCall("pkg.Foo", "bar", ["int"])), isClassAllowed, allowedMethods) == []
    ensures CallProblems(Some(ResolvedCall("pkg.Foo", "bar", ["int", "int"])), isClassAllowed, allowedMethods)
            == [MethodNotAllowed("pkg.Foo", "bar")]
  {
    assert !IsExemptName("pkg.Foo") by { assert "pkg.Foo"[0] != UserlibPackagePrefix[0]; }
    OneParamMatch(allowedMethods("pkg.Foo", "bar"), "int");
  }
}
