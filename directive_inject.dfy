/**
 * The tree-aware injection instruction of generated factories, and the instruction that marks
 * a class whose factory could not be generated. A view and a node are opaque to this layer:
 * they are type parameters, and the node-injector walk is a collaborator.
 */
module DirectiveInjection {
  import opened JsValues
  import opened Flags
  import opened InjectorCompatibility

  const INVALID_FACTORY_MESSAGE: string := "This constructor was not compatible with Dependency Injection."

  /** What the instruction reads from the render layer. */
  datatype RenderState<!LView, !TNode> = RenderState(
    /** `getLView()`: `None` when no view has been created */
    lView: Option<LView>,
    /** `getCurrentTNode()` */
    currentTNode: TNode,
    /** `getOrCreateInjectable(tNode, lView, token, flags)` */
    getOrCreateInjectable: (TNode, LView, Value, InjectFlags) -> Outcome<Value>)

  /**
   * `ɵɵdirectiveInject(token, flags)`. `self` is the identity of this instruction as an inject
   * implementation; in dev mode the fallback first checks that it is not the installed one,
   * which would recurse forever.
   */
  function DirectiveInject<LView, TNode>(state: DiState, env: Collaborators, render: RenderState<LView, TNode>,
                                         self: Impl, devMode: bool, token: Value,
                                         flags: InjectFlags := Default): (r: Outcome<Value>)
    reads state
    ensures render.lView.Some? ==>
              r == render.getOrCreateInjectable(render.currentTNode, render.lView.value, env.resolveForwardRef(token), flags)
    ensures render.lView.None? && devMode && state.injectImplementation == Some(self) ==> r == Throw(RecursionGuard)
    ensures render.lView.None? && !(devMode && state.injectImplementation == Some(self)) ==>
              r == state.Inject(env, token, flags)
  {
    match render.lView
    case None =>
      if devMode && state.injectImplementation == Some(self) then Throw(RecursionGuard)
      else state.Inject(env, token, flags)
    case Some(lView) =>
      render.getOrCreateInjectable(render.currentTNode, lView, env.resolveForwardRef(token), flags)
  }

  /** `ɵɵinvalidFactory()`: never returns. */
  function InvalidFactory(devMode: bool): (r: Outcome<Value>)
    ensures r.Throw? && r.error.Error?
    ensures r.error.message == (if devMode then INVALID_FACTORY_MESSAGE else "invalid")
  {
    Throw(Error(if devMode then INVALID_FACTORY_MESSAGE else "invalid"))
  }

  // ---------------------------------------------------------------------------
  // Properties

  /** With a view, the flat layer is not consulted: the injection state makes no difference. */
  lemma ViewIgnoresFlatState<LView, TNode>(s1: DiState, s2: DiState, env: Collaborators, render: RenderState<LView, TNode>,
                                           self: Impl, devMode: bool, token: Value, flags: InjectFlags)
    requires render.lView.Some?
    ensures DirectiveInject(s1, env, render, self, devMode, token, flags)
            == DirectiveInject(s2, env, render, self, devMode, token, flags)
  {
  }

  /** Without a view and outside dev mode, the instruction is `ɵɵinject` with the same flags. */
  lemma NoViewIsInject<LView, TNode>(state: DiState, env: Collaborators, render: RenderState<LView, TNode>,
                                     self: Impl, token: Value, flags: InjectFlags)
    requires render.lView.None?
    ensures DirectiveInject(state, env, render, self, false, token, flags) == state.Inject(env, token, flags)
  {
  }

  /** Dev mode changes the outcome only when the instruction itself is the installed implementation. */
  lemma DevModeOnlyGuards<LView, TNode>(state: DiState, env: Collaborators, render: RenderState<LView, TNode>,
                                        self: Impl, token: Value, flags: InjectFlags)
    ensures DirectiveInject(state, env, render, self, true, token, flags)
              != DirectiveInject(state, env, render, self, false, token, flags)
            ==> render.lView.None? && state.injectImplementation == Some(self)
  {
  }

  /** Before any view and outside an injection context, the fallback fails as `inject()` does. */
  lemma NoViewNoContext<LView, TNode>(state: DiState, env: Collaborators, render: RenderState<LView, TNode>,
                                      self: Impl, devMode: bool, token: Value, flags: InjectFlags)
    requires render.lView.None? && state.injectImplementation.None? && state.currentInjector == NoContext
    ensures DirectiveInject(state, env, render, self, devMode, token, flags) == Throw(Error(NO_INJECTION_CONTEXT))
  {
    NoContextThrows(state, env, token, flags);
  }
}
