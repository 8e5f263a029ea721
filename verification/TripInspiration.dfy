/** The inspiration page of components/features/inspiration/TripInspiration.tsx:
    the featured destinations and the quote list that grows by three per click. */
module TripInspiration {
  import Lists

  datatype Quote = Quote(text: string, author: string)

  /** How many quotes show, and whether the list counts as expanded. */
  datatype QuoteView = QuoteView(visible: nat, expanded: bool)

  const Step: nat := 3
  const FeaturedCount: nat := 6
  const Initial := QuoteView(Step, false)

  const ShowLess := "Show Less"
  const DiscoverMore := "Discover More Inspiration"

  /** `featuredDestinations`: the first six destinations, or all when fewer. */
  function FeaturedDestinations<D>(destinations: seq<D>): (r: seq<D>)
    ensures |r| == if |destinations| < FeaturedCount then |destinations| else FeaturedCount
    ensures forall i :: 0 <= i < |r| ==> r[i] == destinations[i]
  {
    Lists.Take(destinations, FeaturedCount)
  }

  /** `visibleQuotesData`: the first `visible` quotes. */
  function VisibleQuotes(quotes: seq<Quote>, v: QuoteView): (r: seq<Quote>)
    ensures |r| == if v.visible <= |quotes| then v.visible else |quotes|
    ensures forall i :: 0 <= i < |r| ==> r[i] == quotes[i]
  {
    Lists.Take(quotes, v.visible)
  }

  /** `handleLoadMore`: up to three more quotes while some are hidden,
      otherwise back to the first three. */
  function LoadMore(v: QuoteView, total: nat): (w: QuoteView)
    ensures v.visible < total ==> v.visible < w.visible <= total && w.visible <= v.visible + Step && w.expanded
    ensures v.visible < total && w.visible < total ==> w.visible == v.visible + Step
    ensures v.visible >= total ==> w == Initial
  {
    if v.visible < total then
      QuoteView(if v.visible + Step < total then v.visible + Step else total, true)
    else
      Initial
  }

  /** What the state can be: three quotes and collapsed, or more than three
      (up to all of them) and expanded. */
  ghost predicate Inv(v: QuoteView, total: nat) {
    && (v.visible == Step || Step < v.visible <= total)
    && (v.expanded <==> v.visible > Step)
  }

  /** The initial state satisfies the invariant, and every click keeps it. */
  lemma LoadMoreKeepsInv(v: QuoteView, total: nat)
    ensures Inv(Initial, total)
    ensures Inv(v, total) ==> Inv(LoadMore(v, total), total)
  {
  }

  /** The state after `n` clicks starting from `v`. */
  function Clicks(v: QuoteView, total: nat, n: nat): QuoteView
    decreases n
  {
    if n == 0 then v else Clicks(LoadMore(v, total), total, n - 1)
  }

  /** With the page's nine quotes the list shows 3, 6, 9 and then 3 again. */
  lemma NineQuoteCycle()
    ensures |Quotes| == 9
    ensures Clicks(Initial, 9, 1) == QuoteView(6, true)
    ensures Clicks(Initial, 9, 2) == QuoteView(9, true)
    ensures Clicks(Initial, 9, 3) == Initial
  {
  }

  /** The button caption as written: it follows the expanded flag. */
  function Label(v: QuoteView): (s: string)
    ensures s == ShowLess <==> v.expanded
  {
    if v.expanded then ShowLess else DiscoverMore
  }

  /** As written, the caption says "Show Less" after the first click of nine
      quotes, yet the next click shows more. */
  lemma LabelMisleads()
    ensures var v := Clicks(Initial, 9, 1);
      Label(v) == ShowLess && LoadMore(v, 9).visible > v.visible
  {
  }

  /** The caption evidently intended: "Show Less" when, and only when, the click will collapse the list. */
  function LabelIntended(v: QuoteView, total: nat): (s: string)
    ensures Inv(v, total) ==> (s == ShowLess <==> LoadMore(v, total).visible <= v.visible)
  {
    if v.visible < total then DiscoverMore else ShowLess
  }

  /** The page's nine quotes. */
  const Quotes: seq<Quote> := [
    Quote("The world is a book and those who do not travel read only one page.", "St. Augustine"),
    Quote("Travel isn't always pretty. It isn't always comfortable. But that's okay. The journey changes you; it should change you.", "Anthony Bourdain"),
    Quote("Travel makes one modest. You see what a tiny place you occupy in the world.", "Gustave Flaubert"),
    Quote("To travel is to discover that everyone is wrong about other countries.", "Aldous Huxley"),
    Quote("The real voyage of discovery consists not in seeking new landscapes, but in having new eyes.", "Marcel Proust"),
    Quote("Once a year, go someplace you've never been before.", "Dalai Lama"),
    Quote("Remember that happiness is a way of travel, not a destination.", "Roy M. Goodman"),
    Quote("Travel far, travel wide, travel deep.", "Anais Nin"),
    Quote("Traveling \U{2013} it leaves you speechless, then turns you into a storyteller.", "Ibn Battuta")]

  /** Each click either reveals further quotes after those already shown or collapses back to the first three. */
  lemma ClicksExtendShownQuotes(v: QuoteView, total: nat, quotes: seq<Quote>)
    requires total == |quotes| && Inv(v, total)
    ensures var w := LoadMore(v, total);
      w.visible > v.visible ==> VisibleQuotes(quotes, v) == VisibleQuotes(quotes, w)[..|VisibleQuotes(quotes, v)|]
    ensures var w := LoadMore(v, total);
      w.visible <= v.visible ==> VisibleQuotes(quotes, w) == Lists.Take(quotes, Step)
  {
  }
}
