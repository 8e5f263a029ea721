/** The welcome gate of components/animation/animation-provider.tsx: the
    first visit (no flag in local storage) plays the welcome animation and
    hides the page until it completes. */
module AnimationProvider {
  import opened Wrappers

  /** The browser's local storage. */
  type Store = map<string, string>

  const VisitedKey := "visited-travel-explorer"
  const VisitedValue := "true"
  const OutsideProvider := "useAnimationContext must be used within an AnimationProvider"

  datatype ProviderState = ProviderState(mounted: bool, isFirstVisit: bool, isWelcomeComplete: bool)

  /** What the context hands to consumers; the setter is `SetWelcomeComplete`. */
  datatype Context = Context(isFirstVisit: bool, isWelcomeComplete: bool)

  /** What the provider renders: nothing before mounting, otherwise the page
      with or without the welcome overlay. `asksVisible` is which class the
      content wrapper's interpolated class string requests (`opacity-[1]
      visible-visible` rather than `opacity-[0] visible-hidden`); whether a
      stylesheet defines those classes is outside the model. */
  datatype Rendered = Nothing | Page(overlay: bool, asksVisible: bool)

  const Initial := ProviderState(false, false, true)

  /** `if (visited)`: a stored value counts only when it is a non-empty string. */
  predicate Visited(store: Store) {
    VisitedKey in store && store[VisitedKey] != ""
  }

  /** The mount effect: a returning visitor skips the welcome; a first-time
      visitor gets the flag written and the welcome started. */
  function Mount(s: ProviderState, store: Store): (r: (ProviderState, Store))
    ensures r.0.mounted
    ensures r.0.isFirstVisit <==> !Visited(store)
    ensures r.0.isWelcomeComplete <==> Visited(store)
    ensures Visited(r.1)
    ensures Visited(store) ==> r.1 == store
    ensures !Visited(store) ==> r.1 == store[VisitedKey := VisitedValue]
  {
    if Visited(store) then (ProviderState(true, false, true), store)
    else (ProviderState(true, true, false), store[VisitedKey := VisitedValue])
  }

  /** `setIsWelcomeComplete`, as the welcome animation calls it. */
  function SetWelcomeComplete(s: ProviderState, value: bool): (r: ProviderState)
    ensures r.isWelcomeComplete == value && r.mounted == s.mounted && r.isFirstVisit == s.isFirstVisit
  {
    s.(isWelcomeComplete := value)
  }

  /** The render: nothing until mounted; then the overlay exactly when this is
      a first visit whose welcome has not completed, and the content wrapper
      asks to be visible exactly when the overlay is not shown. */
  function Render(s: ProviderState): (r: Rendered)
    ensures r.Nothing? <==> !s.mounted
    ensures r.Page? ==> (r.overlay <==> s.isFirstVisit && !s.isWelcomeComplete)
    ensures r.Page? ==> r.asksVisible == !r.overlay
  {
    if !s.mounted then Nothing
    else
      var overlay := s.isFirstVisit && !s.isWelcomeComplete;
      Page(overlay, !overlay)
  }

  /** `useAnimationContext`: the context, or the error thrown outside a provider. */
  function UseAnimationContext(ctx: Option<Context>): (r: Result<Context, string>)
    ensures ctx.Some? <==> r.Success?
    ensures ctx.Some? ==> r.value == ctx.value
    ensures ctx.None? ==> r.error == OutsideProvider
  {
    match ctx
    case Some(c) => Success(c)
    case None => Failure(OutsideProvider)
  }

  /** A first visit shows the overlay and hides the page until the welcome
      completes, and then shows the page without the overlay. */
  lemma FirstVisitFlow(store: Store)
    requires !Visited(store)
    ensures Render(Mount(Initial, store).0) == Page(true, false)
    ensures Render(SetWelcomeComplete(Mount(Initial, store).0, true)) == Page(false, true)
  {
  }

  /** The flag the first visit writes makes every later visit a returning one: no overlay. */
  lemma SecondVisitSkipsWelcome(store: Store)
    ensures var (_, after) := Mount(Initial, store);
      var (s2, store2) := Mount(Initial, after);
      !s2.isFirstVisit && Render(s2) == Page(false, true) && store2 == after
  {
  }

  /** Whatever the visitor, the mounted provider either shows the welcome overlay or asks for the content to be visible. */
  lemma NeverBlankAfterMount(s: ProviderState)
    requires s.mounted
    ensures Render(s).Page? && (Render(s).asksVisible || Render(s).overlay)
  {
  }
}
