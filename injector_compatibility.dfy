/**
 * The flat injection layer: the current-injector slot, `inject` and its injector-only
 * fallback, the resolution of a list of constructor dependencies (`injectArgs`), the
 * decorator flag annotations, and the augmentation of an injector error on its way out.
 *
 * The process-wide variables of the layer (the current injector, the installed inject
 * implementation of the inject switch, and the flags patched onto decorators) are the
 * fields of one `DiState` object. Collaborators whose code is not part of this model
 * (`resolveForwardRef`, `Injector.get`, the root limp-mode fallback, an installed
 * implementation) are the functions of a `Collaborators` value.
 */
module InjectorCompatibility {
  import opened JsValues
  import opened Flags
  import ErrorFormat

  const NO_INJECTION_CONTEXT: string := "inject() must be called from an injection context"
  const EMPTY_ARGUMENTS: string := "Arguments array must have arguments."

  /** The property naming a token's source label (`SOURCE`). */
  const SOURCE: string := "__source"

  /** An injector object: only its identity matters here. */
  datatype InjectorRef = InjectorRef(id: nat)

  /** `_currentInjector`: `undefined` (no context), `null` (limp mode) or an injector. */
  datatype InjectorSlot = NoContext | LimpMode | Active(injector: InjectorRef)

  /** An inject implementation installed through the inject switch, known by identity. */
  datatype Impl = Impl(id: nat)

  datatype Collaborators = Collaborators(
    resolveForwardRef: Value -> Value,
    /** `injector.get(token, notFoundValue, flags)` */
    injectorGet: (InjectorRef, Value, Value, InjectFlags) -> Outcome<Value>,
    /** `injectRootLimpMode(token, notFoundValue, flags)` */
    injectRootLimpMode: (Value, Value, InjectFlags) -> Outcome<Value>,
    /** calling an installed implementation with `(token, flags)` */
    callImplementation: (Impl, Value, InjectFlags) -> Outcome<Value>)

  /**
   * The `__NG_DI_FLAG__` annotations: on a decorator function itself, and on its `prototype`
   * (which every instance of the decorator reads through), both keyed by the function's id.
   */
  datatype FlagAnnotations = FlagAnnotations(onDecorator: map<nat, int>, onPrototype: map<nat, int>)

  /** The annotations after `attachInjectFlag` on decorator function `id`. */
  function WithFlag(annotations: FlagAnnotations, id: nat, flag: int): FlagAnnotations {
    FlagAnnotations(annotations.onDecorator[id := flag], annotations.onPrototype[id := flag])
  }

  /**
   * `getInjectFlag(token)`, i.e. `token.__NG_DI_FLAG__`: `None` when that is not a number.
   * Reading it on `undefined` or `null` throws.
   */
  function ReadFlag(annotations: FlagAnnotations, token: Value): (r: Outcome<Option<int>>)
    ensures r.Throw? <==> Nullish(token)
  {
    match token
    case Undefined => Throw(TypeError)
    case Null => Throw(TypeError)
    case Fn(id, _) => Return(if id in annotations.onDecorator then Some(annotations.onDecorator[id]) else None)
    case Obj(_, ctor, _) => Return(if ctor in annotations.onPrototype then Some(annotations.onPrototype[ctor]) else None)
    case _ => Return(None)
  }

  /** `flags & Optional ? null : undefined`: the value the injector returns for a missing token. */
  function NotFoundValue(flags: InjectFlags): (r: Value)
    ensures r == Null <==> flags & Optional != 0
    ensures r == Undefined <==> flags & Optional == 0
  {
    if HasOptional(flags) then Null else Undefined
  }

  // ---------------------------------------------------------------------------
  // Scanning the decorators of one parameter

  /** What one element of a decorator list contributes. */
  datatype MetaKind =
    | SetsToken(token: Value)       // `@Inject(token)` (flag -1) or a plain token
    | AddsFlags(bits: InjectFlags)  // any other numeric flag
    | Unreadable                    // `undefined` or `null`: reading its flag throws

  /** What one element contributes; only `undefined` and `null` cannot be read. */
  function Classify(annotations: FlagAnnotations, meta: Value): (r: MetaKind)
    ensures r.Unreadable? <==> Nullish(meta)
  {
    match ReadFlag(annotations, meta)
    case Throw(_) => Unreadable
    case Return(None) => SetsToken(meta)
    case Return(Some(flag)) =>
      if flag == InjectDecoratorFlag then
        SetsToken(match GetProperty(meta, "token") case Return(t) => t case Throw(_) => Undefined)
      else AddsFlags(ToInt32Bits(flag))
  }

  /** What each element of a decorator list contributes, in order. */
  function Kinds(annotations: FlagAnnotations, metas: seq<Value>): seq<MetaKind> {
    seq(|metas|, k requires 0 <= k < |metas| => Classify(annotations, metas[k]))
  }

  /** The token and flag mask after the contributions `kinds`, left to right, from `undefined` and `Default`. */
  function ScanKinds(kinds: seq<MetaKind>): (r: Outcome<(Value, InjectFlags)>)
    ensures r.Throw? ==> r.error == TypeError
    decreases |kinds|
  {
    if |kinds| == 0 then Return((Undefined, Default))
    else
      match ScanKinds(kinds[..|kinds| - 1])
      case Throw(e) => Throw(e)
      case Return(acc) =>
        match kinds[|kinds| - 1]
        case Unreadable => Throw(TypeError)
        case SetsToken(t) => Return((t, acc.1))
        case AddsFlags(bits) => Return((acc.0, Union(acc.1, bits)))
  }

  /** The token and flag mask a decorator list gives, or the error reading it raises. */
  function ScanDecorators(annotations: FlagAnnotations, metas: seq<Value>): Outcome<(Value, InjectFlags)> {
    ScanKinds(Kinds(annotations, metas))
  }

  /** A decorator list holding `undefined` or `null` anywhere fails with a `TypeError`. */
  lemma NullishDecoratorThrows(annotations: FlagAnnotations, metas: seq<Value>)
    ensures (exists k :: 0 <= k < |metas| && Nullish(metas[k])) ==> ScanDecorators(annotations, metas) == Throw(TypeError)
  {
    var kinds := Kinds(annotations, metas);
    ScanFails(kinds);
    if k :| 0 <= k < |metas| && Nullish(metas[k]) {
      assert kinds[k].Unreadable?;
    }
  }

  // ---------------------------------------------------------------------------
  // The process-wide state and the operations that read or change it

  class DiState {
    var currentInjector: InjectorSlot
    var injectImplementation: Option<Impl>
    var annotations: FlagAnnotations

    /** The state at start-up: no injection context, no installed implementation, no annotations. */
    constructor ()
      ensures currentInjector == NoContext && injectImplementation == None
      ensures annotations == FlagAnnotations(map[], map[])
    {
      currentInjector := NoContext;
      injectImplementation := None;
      annotations := FlagAnnotations(map[], map[]);
    }

    /** `setCurrentInjector`: installs `injector` and returns the value it replaces. */
    method SetCurrentInjector(injector: InjectorSlot) returns (former: InjectorSlot)
      modifies this`currentInjector
      ensures former == old(currentInjector) && currentInjector == injector
    {
      former := currentInjector;
      currentInjector := injector;
    }

    /** Two swaps in a row return the original value, then the first installed one. */
    method SetCurrentInjectorTwice(first: InjectorSlot, second: InjectorSlot)
      returns (former1: InjectorSlot, former2: InjectorSlot)
      modifies this`currentInjector
      ensures former1 == old(currentInjector) && former2 == first && currentInjector == second
    {
      former1 := SetCurrentInjector(first);
      former2 := SetCurrentInjector(second);
    }

    /** Restoring the value a swap returned puts the slot back as it was. */
    method SetAndRestore(injector: InjectorSlot)
      modifies this`currentInjector
      ensures currentInjector == old(currentInjector)
    {
      var former := SetCurrentInjector(injector);
      var current := SetCurrentInjector(former);
      assert current == injector;
    }

    /** `injectInjectorOnly(token, flags)`. */
    function InjectInjectorOnly(env: Collaborators, token: Value, flags: InjectFlags := Default): (r: Outcome<Value>)
      reads this
      ensures currentInjector == NoContext ==> r == Throw(Error(NO_INJECTION_CONTEXT))
      ensures currentInjector == LimpMode ==> r == env.injectRootLimpMode(token, Undefined, flags)
      ensures currentInjector.Active? ==>
                r == env.injectorGet(currentInjector.injector, token, NotFoundValue(flags), flags)
    {
      match currentInjector
      case NoContext => Throw(Error(NO_INJECTION_CONTEXT))
      case LimpMode => env.injectRootLimpMode(token, Undefined, flags)
      case Active(injector) =>
        env.injectorGet(injector, token, NotFoundValue(flags), flags)
    }

    /** `ɵɵinject(token, flags)`: resolve the forward reference once, then dispatch. */
    function Inject(env: Collaborators, token: Value, flags: InjectFlags := Default): (r: Outcome<Value>)
      reads this
      ensures injectImplementation.Some? ==>
                r == env.callImplementation(injectImplementation.value, env.resolveForwardRef(token), flags)
      ensures injectImplementation.None? ==>
                r == InjectInjectorOnly(env, env.resolveForwardRef(token), flags)
    {
      var resolved := env.resolveForwardRef(token);
      match injectImplementation
      case Some(impl) => env.callImplementation(impl, resolved, flags)
      case None => InjectInjectorOnly(env, resolved, flags)
    }

    /** What `injectArgs` computes for one entry of its list. */
    function InjectDependency(env: Collaborators, entry: Value): (r: Outcome<Value>)
      reads this
      ensures var arg := env.resolveForwardRef(entry);
        arg.List? && (exists k :: 0 <= k < |arg.elems| && Nullish(arg.elems[k])) ==> r == Throw(TypeError)
    {
      var arg := env.resolveForwardRef(entry);
      if !arg.List? then Inject(env, arg)
      else if |arg.elems| == 0 then Throw(Error(EMPTY_ARGUMENTS))
      else
        NullishDecoratorThrows(annotations, arg.elems);
        match ScanDecorators(annotations, arg.elems)
        case Throw(e) => Throw(e)
        case Return(scan) => Inject(env, scan.0, scan.1)
    }

    /** What `injectArgs` computes for the first `|types|` entries. */
    function InjectArgsSpec(env: Collaborators, types: seq<Value>): (r: Outcome<seq<Value>>)
      reads this
      ensures r.Return? ==> |r.value| == |types|
      decreases |types|
    {
      if |types| == 0 then Return([])
      else
        match InjectArgsSpec(env, types[..|types| - 1])
        case Throw(e) => Throw(e)
        case Return(init) =>
          match InjectDependency(env, types[|types| - 1])
          case Throw(e) => Throw(e)
          case Return(v) => Return(init + [v])
    }

    /** `injectArgs(types)`: one injected value per entry, in order; the first throw ends it. */
    method InjectArgs(env: Collaborators, types: seq<Value>) returns (r: Outcome<seq<Value>>)
      ensures r == InjectArgsSpec(env, types)
    {
      var args: seq<Value> := [];
      var i := 0;
      while i < |types|
        invariant 0 <= i <= |types|
        invariant InjectArgsSpec(env, types[..i]) == Return(args)
      {
        var arg := env.resolveForwardRef(types[i]);
        var result: Outcome<Value>;
        if arg.List? {
          if |arg.elems| == 0 {
            r := Throw(Error(EMPTY_ARGUMENTS));
            ArgsThrowPersists(env, types, i, |types|, r.error);
            return;
          }
          var scan := ScanParameterDecorators(arg.elems);
          if scan.Throw? {
            r := Throw(scan.error);
            ArgsThrowPersists(env, types, i, |types|, r.error);
            return;
          }
          result := Inject(env, scan.value.0, scan.value.1);
        } else {
          result := Inject(env, arg);
        }
        assert types[..i + 1][..i] == types[..i];
        if result.Throw? {
          r := Throw(result.error);
          ArgsThrowPersists(env, types, i, |types|, r.error);
          return;
        }
        args := args + [result.value];
        i := i + 1;
      }
      assert types[..|types|] == types;
      r := Return(args);
    }

    /** The inner loop of `injectArgs`: the token and flag mask one decorator list gives. */
    method ScanParameterDecorators(metas: seq<Value>) returns (r: Outcome<(Value, InjectFlags)>)
      ensures r == ScanDecorators(annotations, metas)
    {
      ghost var kinds := Kinds(annotations, metas);
      var token := Undefined;
      var flags := Default;
      for j := 0 to |metas|
        invariant ScanKinds(kinds[..j]) == Return((token, flags))
      {
        var meta := metas[j];
        ScanExtend(kinds, j, (token, flags));
        var flag := ReadFlag(annotations, meta);
        if flag.Throw? {
          ScanThrowPersists(kinds, j + 1, |kinds|, TypeError);
          assert kinds[..|kinds|] == kinds;
          return Throw(flag.error);
        }
        if flag.value.Some? {
          if flag.value.value == InjectDecoratorFlag {
            token := GetProperty(meta, "token").value;
          } else {
            flags := Union(flags, ToInt32Bits(flag.value.value));
          }
        } else {
          token := meta;
        }
      }
      assert kinds[..|kinds|] == kinds;
      r := Return((token, flags));
    }

    /** Once an entry throws, every longer prefix of the list throws the same. */
    lemma {:induction false} ArgsThrowPersists(env: Collaborators, types: seq<Value>, i: nat, n: nat, e: Thrown)
      requires i < n <= |types|
      requires InjectArgsSpec(env, types[..i]).Return? && InjectDependency(env, types[i]) == Throw(e)
      ensures InjectArgsSpec(env, types[..n]) == Throw(e)
      ensures n == |types| ==> InjectArgsSpec(env, types) == Throw(e)
      decreases n
    {
      assert types[..n][..n - 1] == types[..n - 1];
      if n > i + 1 {
        ArgsThrowPersists(env, types, i, n - 1, e);
      }
      assert types[..|types|] == types;
    }

    /** `attachInjectFlag(decorator, flag)`: annotates the function and its prototype, returns it. */
    method AttachInjectFlag(decorator: Value, flag: int) returns (r: Value)
      requires decorator.Fn?
      modifies this`annotations
      ensures r == decorator
      ensures annotations == WithFlag(old(annotations), decorator.id, flag)
    {
      annotations := WithFlag(annotations, decorator.id, flag);
      r := decorator;
    }
  }

  /** One more contribution. */
  lemma ScanExtend(kinds: seq<MetaKind>, j: nat, acc: (Value, InjectFlags))
    requires j < |kinds| && ScanKinds(kinds[..j]) == Return(acc)
    ensures ScanKinds(kinds[..j + 1]) ==
              match kinds[j]
              case Unreadable => Throw(TypeError)
              case SetsToken(t) => Return((t, acc.1))
              case AddsFlags(bits) => Return((acc.0, Union(acc.1, bits)))
  {
    assert kinds[..j + 1][..j] == kinds[..j];
  }

  /** Once a decorator element cannot be read, every longer prefix of the list throws. */
  lemma {:induction false} ScanThrowPersists(kinds: seq<MetaKind>, j: nat, n: nat, e: Thrown)
    requires 0 < j <= n <= |kinds|
    requires ScanKinds(kinds[..j]) == Throw(e)
    ensures ScanKinds(kinds[..n]) == Throw(e)
    decreases n
  {
    if n > j {
      ScanThrowPersists(kinds, j, n - 1, e);
      assert kinds[..n][..n - 1] == kinds[..n - 1];
    }
  }

  // ---------------------------------------------------------------------------
  // Errors raised directly by generated code

  /** The decimal digits of a non-negative number, most significant first, with no leading zero. */
  function DecimalString(n: nat): (r: string)
    ensures |r| >= 1 && forall k :: 0 <= k < |r| ==> '0' <= r[k] <= '9'
    ensures n > 0 ==> r[0] != '0'
    ensures n == 0 ==> r == "0"
  {
    var digit := ['0' + (n % 10) as char];
    if n < 10 then digit else DecimalString(n / 10) + digit
  }

  /** The number a string of decimal digits denotes. */
  function DecimalValue(s: string): nat
    requires forall k :: 0 <= k < |s| ==> '0' <= s[k] <= '9'
    decreases |s|
  {
    if |s| == 0 then 0 else 10 * DecimalValue(s[..|s| - 1]) + (s[|s| - 1] - '0') as nat
  }

  /** Reading the rendered digits back gives the number. */
  lemma {:induction false} DecimalRoundTrip(n: nat)
    ensures DecimalValue(DecimalString(n)) == n
  {
    var r := DecimalString(n);
    if n >= 10 {
      DecimalRoundTrip(n / 10);
      assert r[..|r| - 1] == DecimalString(n / 10);
    }
  }

  /** The three fixed pieces of the development-mode message, around the two copies of the index. */
  const DEP_MESSAGE_HEAD: string :=
    "This constructor is not compatible with Angular Dependency Injection because its dependency at index "
  const DEP_MESSAGE_MIDDLE: string :=
    " of the parameter list is invalid.\n"
    + "This can happen if the dependency type is a primitive like a string or if an ancestor of this class is missing an Angular decorator.\n"
    + "\nPlease check that 1) the type for the parameter at index "
  const DEP_MESSAGE_TAIL: string :=
    " is correct and 2) the correct Angular decorators are defined for this class and its ancestors."

  /** `${head}${i}${middle}${i}${tail}`: a template that interpolates the same text twice. */
  function InterpolateTwice(head: string, i: string, middle: string, tail: string): string {
    head + i + middle + i + tail
  }

  /** The development-mode message of `ɵɵinvalidFactoryDep`, with the index in decimal. */
  function InvalidFactoryDepMessage(index: nat): string {
    InterpolateTwice(DEP_MESSAGE_HEAD, DecimalString(index), DEP_MESSAGE_MIDDLE, DEP_MESSAGE_TAIL)
  }

  /** `ɵɵinvalidFactoryDep(index)`: never returns; in dev mode the message names the index. */
  function InvalidFactoryDep(index: nat, devMode: bool): (r: Outcome<Value>)
    ensures r.Throw? && r.error.Error?
    ensures devMode ==> r.error.message == InvalidFactoryDepMessage(index)
    ensures !devMode ==> r.error.message == "invalid"
  {
    Throw(Error(if devMode then InvalidFactoryDepMessage(index) else "invalid"))
  }

  /** The interpolated text reads back from both of its places, right after `head` and after `middle`. */
  lemma InterpolatedTwiceAt(head: string, i: string, middle: string, tail: string)
    ensures var m := InterpolateTwice(head, i, middle, tail);
      && |m| == |head| + |i| + |middle| + |i| + |tail|
      && m[|head|..|head| + |i|] == i
      && m[|head| + |i| + |middle|..|head| + |i| + |middle| + |i|] == i
  {
    var m := InterpolateTwice(head, i, middle, tail);
    assert m == (head + i + middle) + (i + tail);
    assert (head + i + middle)[|head|..|head| + |i|] == i;
  }

  /** The development-mode message of `ɵɵinvalidFactoryDep` names the index, in decimal, at both of its places. */
  lemma InvalidFactoryDepNamesIndex(index: nat)
    ensures var m, d := InvalidFactoryDepMessage(index), DecimalString(index);
      var second := |DEP_MESSAGE_HEAD| + |d| + |DEP_MESSAGE_MIDDLE|;
      && |m| == second + |d| + |DEP_MESSAGE_TAIL|
      && m[|DEP_MESSAGE_HEAD|..|DEP_MESSAGE_HEAD| + |d|] == d
      && m[second..second + |d|] == d
  {
    InterpolatedTwiceAt(DEP_MESSAGE_HEAD, DecimalString(index), DEP_MESSAGE_MIDDLE, DEP_MESSAGE_TAIL);
  }

  // ---------------------------------------------------------------------------
  // Augmenting an injector error

  /** The fields of a thrown injector error that the catcher reads and rewrites. */
  class InjectorError {
    var message: string
    /** `ngTempTokenPath`: the path collected while the error travelled up. */
    var tempTokenPath: Value
    /** `ngTokenPath`: the final path, kept for tooling. */
    var tokenPath: Value

    constructor (message: string, tempTokenPath: Value)
      ensures this.message == message && this.tempTokenPath == tempTokenPath && tokenPath == Undefined
    {
      this.message := message;
      this.tempTokenPath := tempTokenPath;
      tokenPath := Undefined;
    }
  }

  /** What the catcher throws: the error it was given, or a `TypeError` raised on the way. */
  datatype Rethrow = RethrowCaught | ThrowTypeError

  /** The path shown in the message: the temporary path, with the token's source label in front when it has one. */
  function CaughtPath(tempTokenPath: Value, sourceLabel: Value): Value
    requires Truthy(sourceLabel) ==> tempTokenPath.List?
  {
    if Truthy(sourceLabel) then List(tempTokenPath.id, [sourceLabel] + tempTokenPath.elems) else tempTokenPath
  }

  /** `catchInjectorError(e, token, injectorErrorName, source)`. */
  method CatchInjectorError(e: InjectorError, token: Value, injectorErrorName: string,
                            source: Option<string>, stringify: Value -> string)
    returns (thrown: Rethrow)
    modifies e
    ensures Nullish(token) ==> thrown == ThrowTypeError && unchanged(e)
    ensures !Nullish(token) ==>
      var sourceLabel := GetProperty(token, SOURCE).value;
      if Truthy(sourceLabel) && !old(e.tempTokenPath).List? then
        thrown == ThrowTypeError && unchanged(e)
      else
        var path := CaughtPath(old(e.tempTokenPath), sourceLabel);
        && thrown == RethrowCaught
        && e.message == ErrorFormat.FormatErrorText("\n" + old(e.message), path, injectorErrorName, source, stringify)
        && e.tokenPath == path
        && e.tempTokenPath == Null
  {
    var tokenPath := e.tempTokenPath;
    var sourceProp := GetProperty(token, SOURCE);
    if sourceProp.Throw? {
      return ThrowTypeError;
    }
    if Truthy(sourceProp.value) {
      if !tokenPath.List? {
        return ThrowTypeError;
      }
      tokenPath := List(tokenPath.id, [sourceProp.value] + tokenPath.elems);
    }
    e.message := ErrorFormat.FormatError("\n" + e.message, tokenPath, injectorErrorName, stringify, source);
    e.tokenPath := tokenPath;
    e.tempTokenPath := Null;
    thrown := RethrowCaught;
  }

  // ---------------------------------------------------------------------------
  // Properties

  /** With no context and nothing installed, `inject` throws whatever the flags, `Optional` included. */
  lemma NoContextThrows(state: DiState, env: Collaborators, token: Value, flags: InjectFlags)
    requires state.currentInjector == NoContext && state.injectImplementation.None?
    ensures state.Inject(env, token, flags) == Throw(Error(NO_INJECTION_CONTEXT))
  {
  }

  /** An annotation reads back: from the decorator itself and from any of its instances. */
  lemma FlagRoundTrip(annotations: FlagAnnotations, id: nat, flag: int, props: seq<Prop>, instance: nat, instanceProps: seq<Prop>)
    ensures ReadFlag(WithFlag(annotations, id, flag), Fn(id, props)) == Return(Some(flag))
    ensures ReadFlag(WithFlag(annotations, id, flag), Obj(instance, id, instanceProps)) == Return(Some(flag))
  {
  }

  /** Annotating one decorator changes what no other value reads. */
  lemma FlagFrame(annotations: FlagAnnotations, id: nat, flag: int, token: Value)
    requires !(token.Fn? && token.id == id) && !(token.Obj? && token.ctor == id)
    ensures ReadFlag(WithFlag(annotations, id, flag), token) == ReadFlag(annotations, token)
  {
  }

  /** An empty array entry throws before anything is injected. */
  lemma EmptyListEntryThrows(state: DiState, env: Collaborators, entry: Value)
    requires env.resolveForwardRef(entry).List? && env.resolveForwardRef(entry).elems == []
    ensures state.InjectDependency(env, entry) == Throw(Error(EMPTY_ARGUMENTS))
  {
  }

  /** A non-array entry is injected with the default flags. */
  lemma PlainEntryDefaultFlags(state: DiState, env: Collaborators, entry: Value)
    requires !env.resolveForwardRef(entry).List?
    ensures state.InjectDependency(env, entry) == state.Inject(env, env.resolveForwardRef(entry), Default)
  {
  }

  /** A decorated entry is injected once, with the token and mask of its scan. */
  lemma DecoratedEntryInjectedOnce(state: DiState, env: Collaborators, entry: Value)
    requires env.resolveForwardRef(entry).List? && |env.resolveForwardRef(entry).elems| > 0
    requires ScanDecorators(state.annotations, env.resolveForwardRef(entry).elems).Return?
    ensures var scan := ScanDecorators(state.annotations, env.resolveForwardRef(entry).elems).value;
            state.InjectDependency(env, entry) == state.Inject(env, scan.0, scan.1)
  {
  }

  /** `injectArgs` succeeds exactly when every entry does, with one result per entry, in order. */
  lemma {:induction false} InjectArgsPointwise(state: DiState, env: Collaborators, types: seq<Value>)
    ensures state.InjectArgsSpec(env, types).Return? <==>
              forall k :: 0 <= k < |types| ==> state.InjectDependency(env, types[k]).Return?
    ensures state.InjectArgsSpec(env, types).Return? ==>
              |state.InjectArgsSpec(env, types).value| == |types| &&
              forall k :: 0 <= k < |types| ==>
                state.InjectArgsSpec(env, types).value[k] == state.InjectDependency(env, types[k]).value
    decreases |types|
  {
    if |types| > 0 {
      var init := types[..|types| - 1];
      InjectArgsPointwise(state, env, init);
      assert forall k :: 0 <= k < |init| ==> init[k] == types[k];
    }
  }

  /** When `injectArgs` throws, it throws what its first failing entry threw. */
  lemma {:induction false} InjectArgsFirstError(state: DiState, env: Collaborators, types: seq<Value>)
    requires state.InjectArgsSpec(env, types).Throw?
    ensures exists k :: 0 <= k < |types|
              && state.InjectDependency(env, types[k]) == Throw(state.InjectArgsSpec(env, types).error)
              && forall j :: 0 <= j < k ==> state.InjectDependency(env, types[j]).Return?
    decreases |types|
  {
    var init := types[..|types| - 1];
    var e := state.InjectArgsSpec(env, types).error;
    if state.InjectArgsSpec(env, init).Throw? {
      InjectArgsFirstError(state, env, init);
      var k :| 0 <= k < |init|
                && state.InjectDependency(env, init[k]) == Throw(state.InjectArgsSpec(env, init).error)
                && forall j :: 0 <= j < k ==> state.InjectDependency(env, init[j]).Return?;
      assert forall j :: 0 <= j <= k ==> init[j] == types[j];
    } else {
      InjectArgsPointwise(state, env, init);
      assert forall j :: 0 <= j < |init| ==> init[j] == types[j];
      assert state.InjectDependency(env, types[|types| - 1]) == Throw(e);
    }
  }

  /** What one element contributes, by its annotation (`undefined`/`null` cannot be read). */
  lemma ClassifyCases(annotations: FlagAnnotations, meta: Value)
    ensures Classify(annotations, meta).Unreadable? <==> Nullish(meta)
    ensures ReadFlag(annotations, meta) == Return(None) ==> Classify(annotations, meta) == SetsToken(meta)
    ensures ReadFlag(annotations, meta) == Return(Some(InjectDecoratorFlag)) ==>
              Classify(annotations, meta) == SetsToken(GetProperty(meta, "token").value)
    ensures forall f :: ReadFlag(annotations, meta) == Return(Some(f)) && f != InjectDecoratorFlag ==>
              Classify(annotations, meta) == AddsFlags(ToInt32Bits(f))
  {
  }

  /** A scan fails exactly when some element cannot be read, and then with a `TypeError`. */
  lemma {:induction false} ScanFails(kinds: seq<MetaKind>)
    ensures ScanKinds(kinds).Throw? <==> exists k :: 0 <= k < |kinds| && kinds[k].Unreadable?
    ensures ScanKinds(kinds).Throw? ==> ScanKinds(kinds).error == TypeError
    decreases |kinds|
  {
    if |kinds| > 0 {
      var init := kinds[..|kinds| - 1];
      ScanFails(init);
      assert forall k :: 0 <= k < |init| ==> init[k] == kinds[k];
    }
  }

  /** With no token-setting element the token stays `undefined`. */
  lemma {:induction false} ScanTokenDefault(kinds: seq<MetaKind>)
    requires ScanKinds(kinds).Return?
    requires forall k :: 0 <= k < |kinds| ==> !kinds[k].SetsToken?
    ensures ScanKinds(kinds).value.0 == Undefined
    decreases |kinds|
  {
    if |kinds| > 0 {
      var init := kinds[..|kinds| - 1];
      assert forall k :: 0 <= k < |init| ==> init[k] == kinds[k];
      ScanTokenDefault(init);
    }
  }

  /** The last token-setting element gives the token. */
  lemma {:induction false} ScanTokenLast(kinds: seq<MetaKind>, k: nat)
    requires ScanKinds(kinds).Return?
    requires k < |kinds| && kinds[k].SetsToken?
    requires forall j :: k < j < |kinds| ==> !kinds[j].SetsToken?
    ensures ScanKinds(kinds).value.0 == kinds[k].token
    decreases |kinds|
  {
    var n := |kinds| - 1;
    if k < n {
      var init := kinds[..n];
      assert init[k] == kinds[k];
      assert forall j :: k < j < |init| ==> init[j] == kinds[j];
      ScanTokenLast(init, k);
    }
  }

  /** Every flag element's bits are in the mask. */
  lemma {:induction false} ScanMaskHas(kinds: seq<MetaKind>, k: nat)
    requires ScanKinds(kinds).Return?
    requires k < |kinds| && kinds[k].AddsFlags?
    ensures Includes(ScanKinds(kinds).value.1, kinds[k].bits)
    decreases |kinds|
  {
    var n := |kinds| - 1;
    var init := kinds[..n];
    assert ScanKinds(init).Return?;
    var acc := ScanKinds(init).value;
    var last := kinds[n];
    if k < n {
      assert init[k] == kinds[k];
      ScanMaskHas(init, k);
      if last.AddsFlags? {
        UnionKeeps(acc.1, last.bits, kinds[k].bits);
      }
    } else {
      UnionIncludes(acc.1, last.bits);
    }
  }

  /** No bit outside the flag elements' bits is in the mask. */
  lemma {:induction false} ScanMaskOnly(kinds: seq<MetaKind>, other: InjectFlags)
    requires ScanKinds(kinds).Return?
    requires forall k :: 0 <= k < |kinds| && kinds[k].AddsFlags? ==> Disjoint(kinds[k].bits, other)
    ensures Disjoint(ScanKinds(kinds).value.1, other)
    decreases |kinds|
  {
    if |kinds| > 0 {
      var n := |kinds| - 1;
      var init := kinds[..n];
      assert forall k :: 0 <= k < |init| ==> init[k] == kinds[k];
      ScanMaskOnly(init, other);
      var acc := ScanKinds(init).value;
      var last := kinds[n];
      if last.AddsFlags? {
        UnionDisjoint(acc.1, last.bits, other);
      }
    }
  }

  /** `[new Inject(X), Host]` (an `@Inject` instance, then the `Host` decorator) scans to `X` with the `Host` bit. */
  lemma ScanInjectThenHost(annotations: FlagAnnotations, injectId: nat, hostId: nat, instance: nat,
                           x: Value, props: seq<Prop>)
    requires injectId in annotations.onPrototype && annotations.onPrototype[injectId] == InjectDecoratorFlag
    requires hostId in annotations.onDecorator && annotations.onDecorator[hostId] == 1
    ensures ScanDecorators(annotations, [Obj(instance, injectId, [Prop("token", x)]), Fn(hostId, props)])
            == Return((x, Host))
  {
    var metas := [Obj(instance, injectId, [Prop("token", x)]), Fn(hostId, props)];
    assert GetProperty(metas[0], "token") == Return(x);
    assert ToInt32Bits(1) == Host;
    var kinds := Kinds(annotations, metas);
    assert kinds == [SetsToken(x), AddsFlags(Host)];
    ScanTokenThenFlags(x, Host);
  }

  lemma ScanTokenThenFlags(token: Value, bits: InjectFlags)
    ensures ScanKinds([SetsToken(token), AddsFlags(bits)]) == Return((token, bits))
  {
    var kinds := [SetsToken(token), AddsFlags(bits)];
    assert kinds[..0] == [];
    ScanExtend(kinds, 0, (Undefined, Default));
    ScanExtend(kinds, 1, (token, Default));
    assert kinds[..2] == kinds;
    assert Union(Default, bits) == bits;
  }
}
