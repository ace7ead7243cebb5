# Angular DI runtime core, modelled in Dafny

This project models four small pieces of the dependency-injection runtime of a patched
`@angular/core` build (the `esm2015` output):

- **The flat injection layer** (`esm2015/src/di/injector_compatibility.js`). It covers:
  - the three-state current-injector slot (`undefined` = no context, `null` = limp mode, or an injector) and `setCurrentInjector`;
  - `injectInjectorOnly` and `ɵɵinject`;
  - `injectArgs`, which folds a parameter's decorator list into one token and an OR-ed `InjectFlags` mask;
  - the decorator annotations (`attachInjectFlag` / `getInjectFlag`);
  - `ɵɵinvalidFactoryDep`;
  - `catchInjectorError` and `formatError`, which build the dependency path and the error message.
- **The tree-aware instruction** (`esm2015/src/render3/instructions/di.js`): `ɵɵdirectiveInject` chooses between the view and no-view paths. `ɵɵinvalidFactory` is also covered.
- **The definition field copier** (`esm2015/src/render3/features/copy_definition_feature.js`): `ɵɵCopyDefinitionFeature` copies a fixed set of fields, in place, from a parent class's definition to the child's.
- **Development-mode equality** (`esm2015/src/util/comparison.js`): `devModeEqual`.

JavaScript values form one closed datatype, `JsValues.Value`:
- `undefined`, `null`, booleans, integers, `NaN` and strings are plain variants;
- functions, plain objects and arrays carry an identity, which `Object.is` compares;
- a thrown exception is the `Throw` case of an `Outcome`.

`InjectFlags` is a `bv32`, because JavaScript's `|` and `&` work on 32-bit integers.

The process-wide state of the injection layer is the fields of one `DiState` object:
- the current injector;
- the implementation installed through the inject switch;
- the `__NG_DI_FLAG__` annotations of decorators.

Operations that change state, or that loop, are methods; the rest are functions:
- `setCurrentInjector` and `attachInjectFlag` change one field of `DiState` each (`modifies`). Their `ensures` give the new field directly: the slot (`SetCurrentInjector`) or `WithFlag` of the old annotations (`AttachInjectFlag`).
- `catchInjectorError` rewrites the three fields of the caught error in place (`modifies e`). Its `ensures` gives the new fields through the function `FormatErrorText`.
- `injectArgs` is a method with two nested loops and no frame. It is proved equal to the function `InjectArgsSpec`, and its inner loop (`ScanParameterDecorators`) equal to `ScanDecorators`.
- `formatError` is a method whose loop builds the object entries; it is proved equal to `FormatErrorText`.
- The copy feature is a method with two loops that writes the child definition (`modifies definition`). Its `ensures` ties the new fields to the function `Inherited` of the old ones.
- The properties the source promises are lemmas about these functions.

Two details of the rendered message follow from the code and are easy to miss:
- The text passed to `formatError` by the catcher starts with `'\n'`, so that newline stays in the message, re-indented as `"\n  "`. An example is `NullInjectorError[A -> B]: \n  msg` (`ErrorFormat.ExamplePath`).
- An object context is shown inside braces, as in `Err(Src)[{a:"x", b:1}]: text` (`ErrorFormat.ExampleObject`).

## Model

| member | source | states |
|---|---|---|
| InjectorCompatibility.DiState.SetCurrentInjector | esm2015/src/di/injector_compatibility.js:35-40 | returns the slot's former value and leaves the new one in the slot |
| InjectorCompatibility.DiState.SetCurrentInjectorTwice | esm2015/src/di/injector_compatibility.js:35-40 | setting V1 then V2 returns V0, then V1, and leaves V2 |
| InjectorCompatibility.DiState.SetAndRestore | esm2015/src/di/injector_compatibility.js:35-40 | putting back the value a swap returned restores the slot |
| InjectorCompatibility.DiState.InjectInjectorOnly | esm2015/src/di/injector_compatibility.js:41-51 | no context: throws the injection-context error whatever the flags; limp mode: root fallback with `undefined`; an injector: `get(token, notFound, flags)` with the flags unchanged |
| InjectorCompatibility.NotFoundValue | esm2015/src/di/injector_compatibility.js:49 | the not-found value is `null` exactly when the `Optional` bit is set, `undefined` otherwise |
| InjectorCompatibility.NoContextThrows | esm2015/src/di/injector_compatibility.js:41-54 | with no context and no installed implementation, `inject` throws, `Optional` included |
| InjectorCompatibility.DiState.Inject | esm2015/src/di/injector_compatibility.js:52-54 | resolves the forward reference once, then calls the installed implementation if there is one, else the injector-only path |
| InjectorCompatibility.DiState.InjectDependency | esm2015/src/di/injector_compatibility.js:104-130 | one entry: a decorator list holding `undefined` or `null` anywhere makes the entry throw a `TypeError` |
| InjectorCompatibility.DiState.InjectArgsSpec | esm2015/src/di/injector_compatibility.js:101-134 | what `injectArgs` returns: on success, exactly one value per entry |
| InjectorCompatibility.DiState.InjectArgs | esm2015/src/di/injector_compatibility.js:101-134 | the loop computes exactly the specification of `injectArgs`, error cases included |
| InjectorCompatibility.DiState.ScanParameterDecorators | esm2015/src/di/injector_compatibility.js:109-126 | the inner loop computes exactly the token and mask of the decorator scan, or the `TypeError` of an unreadable element |
| InjectorCompatibility.InjectArgsPointwise | esm2015/src/di/injector_compatibility.js:101-134 | succeeds exactly when every entry does, then gives one result per entry, in input order |
| InjectorCompatibility.InjectArgsFirstError | esm2015/src/di/injector_compatibility.js:101-134 | a failure is the error of the first failing entry, every earlier entry having succeeded |
| InjectorCompatibility.DiState.ArgsThrowPersists | esm2015/src/di/injector_compatibility.js:103-130 | once an entry throws, the whole call throws that error |
| InjectorCompatibility.EmptyListEntryThrows | esm2015/src/di/injector_compatibility.js:105-107 | an empty array entry fails with "Arguments array must have arguments." |
| InjectorCompatibility.PlainEntryDefaultFlags | esm2015/src/di/injector_compatibility.js:129-130 | a non-array entry is injected with the default flags |
| InjectorCompatibility.DecoratedEntryInjectedOnce | esm2015/src/di/injector_compatibility.js:108-127 | a decorated entry is injected once, with the scan's final token and mask |
| InjectorCompatibility.Classify | esm2015/src/di/injector_compatibility.js:112-125 | what one decorator element contributes; it is unreadable exactly when it is `undefined` or `null` |
| InjectorCompatibility.ScanKinds | esm2015/src/di/injector_compatibility.js:109-126 | the left-to-right fold of the contributions from `undefined` and `Default`; its only error is a `TypeError` |
| InjectorCompatibility.NullishDecoratorThrows | esm2015/src/di/injector_compatibility.js:111-113 | a decorator list with `undefined` or `null` at any position scans to a `TypeError` |
| InjectorCompatibility.ClassifyCases | esm2015/src/di/injector_compatibility.js:112-125 | an element with flag -1 (`@Inject`) sets the token to `meta.token`; another numeric flag ORs its int32 bits in; a non-flag element sets the token to itself; only `undefined`/`null` cannot be read |
| InjectorCompatibility.ScanExtend | esm2015/src/di/injector_compatibility.js:111-125 | one more element: a token setter replaces the token and keeps the mask, a flag keeps the token and ORs into the mask, an unreadable element throws `TypeError` |
| InjectorCompatibility.ScanThrowPersists | esm2015/src/di/injector_compatibility.js:111-113 | once an element cannot be read (`undefined`/`null`), the scan fails with `TypeError` |
| InjectorCompatibility.ScanFails | esm2015/src/di/injector_compatibility.js:111-126 | the scan fails exactly when some element cannot be read, and then with a `TypeError` |
| InjectorCompatibility.ScanTokenDefault | esm2015/src/di/injector_compatibility.js:109-126 | with no token-setting element the token stays `undefined` |
| InjectorCompatibility.ScanTokenLast | esm2015/src/di/injector_compatibility.js:111-126 | the last token-setting element gives the token |
| InjectorCompatibility.ScanMaskHas | esm2015/src/di/injector_compatibility.js:110-121 | every flag element's bits are set in the final mask |
| InjectorCompatibility.ScanMaskOnly | esm2015/src/di/injector_compatibility.js:110-121 | no bit outside the flag elements' bits is set in the final mask |
| InjectorCompatibility.ScanInjectThenHost | esm2015/src/di/injector_compatibility.js:109-127 | `[new Inject(X), Host]` scans to token `X` with exactly the `Host` bit |
| InjectorCompatibility.DiState.AttachInjectFlag | esm2015/src/di/injector_compatibility.js:145-149 | annotates the decorator and its prototype with the flag and returns the decorator |
| InjectorCompatibility.ReadFlag | esm2015/src/di/injector_compatibility.js:155-157 | reading a token's flag throws exactly on `undefined` and `null` |
| InjectorCompatibility.FlagRoundTrip | esm2015/src/di/injector_compatibility.js:145-157 | after attaching, the decorator and every instance of it read back the attached flag |
| InjectorCompatibility.FlagFrame | esm2015/src/di/injector_compatibility.js:145-157 | attaching a flag to one decorator changes what no other value reads |
| InjectorCompatibility.InvalidFactoryDep | esm2015/src/di/injector_compatibility.js:67-75 | never returns; dev-mode message with the index, `'invalid'` otherwise |
| InjectorCompatibility.InvalidFactoryDepNamesIndex | esm2015/src/di/injector_compatibility.js:69-72 | the dev-mode message holds the decimal index right after its first fixed piece and again right after its second |
| InjectorCompatibility.DecimalString | esm2015/src/di/injector_compatibility.js:69-72 | `${index}` is a non-empty string of decimal digits without a leading zero |
| InjectorCompatibility.DecimalRoundTrip | esm2015/src/di/injector_compatibility.js:69-72 | reading the rendered digits back gives the index |
| InjectorCompatibility.CatchInjectorError | esm2015/src/di/injector_compatibility.js:158-167 | a token's truthy `__source` is prepended, in place, to the path; the message is re-rendered from `'\n' + message`; the path moves to `ngTokenPath` and `ngTempTokenPath` becomes `null`; the same error is rethrown, unless a property read or a non-array path raises a `TypeError` first |
| ErrorFormat.FormatErrorText | esm2015/src/di/injector_compatibility.js:168-185 | the message starts with `name(source)[` and ends with `]: ` followed by the marker-stripped, re-indented text |
| ErrorFormat.RenderContext | esm2015/src/di/injector_compatibility.js:170-183 | an object or `null` context is shown between braces; a one-element path is its element's label; an empty path is empty |
| ErrorFormat.FormatError | esm2015/src/di/injector_compatibility.js:168-185 | the loop over own properties renders the message `name(source)[context]: text` |
| ErrorFormat.StripMarker | esm2015/src/di/injector_compatibility.js:169 | the first two characters are dropped exactly when they are a newline and the marker |
| ErrorFormat.MarkerAfterNewline | esm2015/src/di/injector_compatibility.js:163-169 | a caught message loses its leading newline exactly when it starts with the marker, and then the marker goes too |
| ErrorFormat.UnindentIndent | esm2015/src/di/injector_compatibility.js:184 | re-indentation loses nothing: removing the indentation gives the text back |
| ErrorFormat.IndentedNewlines | esm2015/src/di/injector_compatibility.js:184 | every newline of the rendered text is followed by two spaces |
| ErrorFormat.IndentWithoutNewline | esm2015/src/di/injector_compatibility.js:184 | text without a newline is rendered unchanged |
| ErrorFormat.SourceLabelShown | esm2015/src/di/injector_compatibility.js:184 | `(source)` appears exactly when the source is a non-empty string |
| ErrorFormat.ExamplePath | esm2015/src/di/injector_compatibility.js:171-184 | a path A, B with text `"\nmsg"` renders as `NullInjectorError[A -> B]: \n  msg` |
| ErrorFormat.ExampleObject | esm2015/src/di/injector_compatibility.js:174-184 | an object context lists its own properties, string values quoted, inside braces |
| ErrorFormat.NullContext | esm2015/src/di/injector_compatibility.js:174-183 | `null` is `typeof 'object'` and renders as `{}` |
| DirectiveInjection.DirectiveInject | esm2015/src/render3/instructions/di.js:13-24 | with a view: the node injector walk with the current node, the resolved token and unchanged flags; with none: `ɵɵinject`, after the dev-mode recursion check |
| DirectiveInjection.ViewIgnoresFlatState | esm2015/src/render3/instructions/di.js:22-23 | with a view, the flat layer's state makes no difference to the result |
| DirectiveInjection.NoViewIsInject | esm2015/src/render3/instructions/di.js:17-21 | without a view and outside dev mode the result is `ɵɵinject(token, flags)` |
| DirectiveInjection.DevModeOnlyGuards | esm2015/src/render3/instructions/di.js:19 | dev mode changes the outcome only when this instruction is itself the installed implementation |
| DirectiveInjection.NoViewNoContext | esm2015/src/render3/instructions/di.js:17-21 | before any view and outside an injection context, the fallback throws the injection-context error |
| DirectiveInjection.InvalidFactory | esm2015/src/render3/instructions/di.js:37-40 | never returns; the dev-mode message, or `'invalid'` |
| JsValues.Truthy | esm2015/src/di/injector_compatibility.js:160 | JavaScript truthiness, as in `if (token[SOURCE])`: `undefined` and `null` are falsy, objects, functions and arrays truthy |
| CopyDefinition.ParentDefinition | esm2015/src/render3/features/copy_definition_feature.js:57-66 | the parent definition is `ɵcmp` for a component child and `ɵdir` otherwise |
| CopyDefinition.CopyDefinitionFeature | esm2015/src/render3/features/copy_definition_feature.js:56-79 | the loops leave the child's fields equal to their specification; a missing parent throws before anything is written |
| CopyDefinition.Inherited | esm2015/src/render3/features/copy_definition_feature.js:68-78 | the child ends up with exactly its own fields plus the copied names, the component names only for a component parent |
| CopyDefinition.CopyFieldsKeys | esm2015/src/render3/features/copy_definition_feature.js:69-71 | one copy loop adds exactly the copied names to the child's fields |
| CopyDefinition.CopyFieldsAt | esm2015/src/render3/features/copy_definition_feature.js:70-77 | a copied name holds the parent's value; any other name keeps its presence and value |
| CopyDefinition.ProvidersResolverCopied | esm2015/src/render3/features/copy_definition_feature.js:70-72 | `providersResolver` equals the parent's afterwards, `undefined` included |
| CopyDefinition.ComponentFieldsCopied | esm2015/src/render3/features/copy_definition_feature.js:73-77 | a component parent hands over each of its nine component-only fields |
| CopyDefinition.ComponentFieldsKept | esm2015/src/render3/features/copy_definition_feature.js:73-78 | a parent that is not a component leaves the child's component-only fields alone |
| CopyDefinition.OtherFieldsUnchanged | esm2015/src/render3/features/copy_definition_feature.js:68-78 | a field in neither list keeps its presence and value |
| CopyDefinition.Idempotent | esm2015/src/render3/features/copy_definition_feature.js:68-78 | applying the feature twice from the same distinct parent gives the result of applying it once |
| Comparison.DevModeEqual | esm2015/src/util/comparison.js:9-25 | `devModeEqual` (arrays pairwise, two non-array objects or functions always, else `Object.is`); its contract: every value equals itself, `NaN` and nested arrays included |
| Comparison.ListsPointwise | esm2015/src/util/comparison.js:10-13 | two arrays are equal exactly when they have equal lengths and are equal element by element |
| Comparison.ObjectsAlwaysEqual | esm2015/src/util/comparison.js:16-19 | any two non-array objects or functions are equal, whatever their contents |
| Comparison.ScalarCases | esm2015/src/util/comparison.js:16-22 | `Object.is` cases: NaN equals NaN; `1` vs `'1'`, `null` vs an object, an array vs an object and `0` vs `''` are unequal |
| Comparison.ExampleLists | esm2015/src/util/comparison.js:12-13 | distinct arrays with equal elements are equal; a differing element or length makes them unequal |
| Comparison.ListVersusOther | esm2015/src/util/comparison.js:12-22 | an array never equals a non-array, in either order |
| Comparison.Symmetric | esm2015/src/util/comparison.js:9-25 | `devModeEqual(a, b) == devModeEqual(b, a)` |

## Left out

- Collaborators whose code is not part of this model are parameters with no behaviour of their own: `resolveForwardRef`, `Injector.get`, `injectRootLimpMode`, an installed inject implementation, `getLView`, `getCurrentTNode`, `getOrCreateInjectable` and `stringify`. Any state they change, and any re-entry into this layer, is not modelled.
- `getInjectImplementation` is the `injectImplementation` field of `DiState`. How the inject switch sets it is not part of this model.
- `getSuperType` is given as its result, the parent's `ɵcmp` and `ɵdir` slots.
- `isComponentDef` is a fixed attribute of each definition object.
- `areIterablesEqual` and `isListLikeIterable` are modelled as "same length and pairwise equal" over arrays; other iterables are not modelled.
- `assertInjectImplementationNotEqual` is modelled only by its outcome, a `RecursionGuard` throw; its message is not modelled.
- The `ngDevMode` global is a boolean parameter.
- Numbers are integers plus `NaN`; floating point, `+0`/`-0` and `Infinity` are not modelled. `ToInt32` is reduction modulo 2^32, which is exact for integers.
- `JSON.stringify` of a string is modelled as the string between double quotes, without escaping.
- `for..in` over an object context visits its own enumerable properties in the order they are listed, which is taken to be JavaScript's enumeration order (integer-like keys first, ascending, then the rest in insertion order); that ordering is not computed from insertion history. Inherited enumerable properties are not modelled.
- Exceptions are values of an `Outcome` datatype. `catchInjectorError` reports what it throws, either the caught error or a `TypeError`, instead of unwinding.
- Dynamic property patching is modelled as explicit fields and maps:
  - `__NG_DI_FLAG__` is two maps keyed by the decorator function;
  - `__source` is a property of the token;
  - `ngTempTokenPath` and `ngTokenPath` are fields of `InjectorError`.
- `InjectorCompatibility.DiState.AttachInjectFlag`: requires the decorator to be a function value. On any other value the source writes or fails in ways this model does not follow.
- `THROW_IF_NOT_FOUND`, `USE_VALUE` and the closure-safe property helper carry no behaviour in this core and are not modelled.
- `esm2015/src/render3/view_engine_compatibility_prebound.js` and `esm2015/src/render3/util/change_detection_utils.js` are thin wrappers over code that is not part of this model, and are left out.
