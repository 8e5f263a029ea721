/** The sticker catalogue of data/mockStickers.ts: 30 stickers, five per time
    of day and ten for any time. */
module Stickers {
  import Lists

  datatype TimeOfDay = Morning | Afternoon | Evening | Night | Anytime

  datatype Sticker = Sticker(id: string, imageUrl: string, timeOfDay: TimeOfDay)

  const MorningStickers: seq<Sticker> := [
    Sticker("sticker-morning-1", "/images/stickers/sunrise.png", Morning),
    Sticker("sticker-morning-2", "/images/stickers/coffee.png", Morning),
    Sticker("sticker-morning-3", "/images/stickers/breakfast.png", Morning),
    Sticker("sticker-morning-4", "/images/stickers/yoga.png", Morning),
    Sticker("sticker-morning-5", "/images/stickers/newspaper.png", Morning)]
  const AfternoonStickers: seq<Sticker> := [
    Sticker("sticker-afternoon-1", "/images/stickers/sun.png", Afternoon),
    Sticker("sticker-afternoon-2", "/images/stickers/beach-umbrella.png", Afternoon),
    Sticker("sticker-afternoon-3", "/images/stickers/sunglasses.png", Afternoon),
    Sticker("sticker-afternoon-4", "/images/stickers/ice-cream.png", Afternoon),
    Sticker("sticker-afternoon-5", "/images/stickers/hiking.png", Afternoon)]
  const EveningStickers: seq<Sticker> := [
    Sticker("sticker-evening-1", "/images/stickers/sunset.png", Evening),
    Sticker("sticker-evening-2", "/images/stickers/cocktail.png", Evening),
    Sticker("sticker-evening-3", "/images/stickers/dinner.png", Evening),
    Sticker("sticker-evening-4", "/images/stickers/bonfire.png", Evening),
    Sticker("sticker-evening-5", "/images/stickers/camera.png", Evening)]
  const NightStickers: seq<Sticker> := [
    Sticker("sticker-night-1", "/images/stickers/moon.png", Night),
    Sticker("sticker-night-2", "/images/stickers/stars.png", Night),
    Sticker("sticker-night-3", "/images/stickers/cityscape-night.png", Night),
    Sticker("sticker-night-4", "/images/stickers/campfire.png", Night),
    Sticker("sticker-night-5", "/images/stickers/sleeping.png", Night)]
  const AnytimeStickers: seq<Sticker> := [
    Sticker("sticker-anytime-1", "/images/stickers/airplane.png", Anytime),
    Sticker("sticker-anytime-2", "/images/stickers/suitcase.png", Anytime),
    Sticker("sticker-anytime-3", "/images/stickers/passport.png", Anytime),
    Sticker("sticker-anytime-4", "/images/stickers/map.png", Anytime),
    Sticker("sticker-anytime-5", "/images/stickers/camera.png", Anytime),
    Sticker("sticker-anytime-6", "/images/stickers/compass.png", Anytime),
    Sticker("sticker-anytime-7", "/images/stickers/palm-tree.png", Anytime),
    Sticker("sticker-anytime-8", "/images/stickers/mountain.png", Anytime),
    Sticker("sticker-anytime-9", "/images/stickers/beach.png", Anytime),
    Sticker("sticker-anytime-10", "/images/stickers/sunglasses.png", Anytime)]
  /** `mockStickers`, in source order. */
  const Palette: seq<Sticker> := MorningStickers + AfternoonStickers + EveningStickers + NightStickers + AnytimeStickers

  /** Every sticker of `g` carries tag `t`. */
  ghost predicate AllTagged(g: seq<Sticker>, t: TimeOfDay) {
    forall i :: 0 <= i < |g| ==> g[i].timeOfDay == t
  }

  /** Which stickers the palette offers under tab `t`: its own and the "anytime" ones. */
  predicate Shown(t: TimeOfDay, s: Sticker) {
    s.timeOfDay == t || s.timeOfDay == Anytime
  }

  /** `filteredStickers`: the catalogue entries shown under tab `t`, in catalogue order. */
  function FilteredStickers(stickers: seq<Sticker>, t: TimeOfDay): (r: seq<Sticker>)
    ensures forall i :: 0 <= i < |r| ==> r[i] in stickers && (r[i].timeOfDay == t || r[i].timeOfDay == Anytime)
    ensures forall i :: 0 <= i < |stickers| && (stickers[i].timeOfDay == t || stickers[i].timeOfDay == Anytime) ==> stickers[i] in r
  {
    Lists.Filter(stickers, (s: Sticker) => Shown(t, s))
  }

  /** The catalogue has 30 entries. */
  lemma PaletteLength()
    ensures |Palette| == 30
  {
  }

  /** No two catalogue entries share an id, so the ids can serve as React keys. */
  lemma PaletteIdsDistinct()
    ensures forall i, j :: 0 <= i < j < |Palette| ==> Palette[i].id != Palette[j].id
  {
  }

  /** Each group carries its own tag. */
  lemma GroupsTagged()
    ensures AllTagged(MorningStickers, Morning) && AllTagged(AfternoonStickers, Afternoon)
    ensures AllTagged(EveningStickers, Evening) && AllTagged(NightStickers, Night)
    ensures AllTagged(AnytimeStickers, Anytime)
  {
  }

  /** Two images appear twice: camera.png (evening and anytime) and
      sunglasses.png (afternoon and anytime). */
  lemma RepeatedImages()
    ensures Palette[14].imageUrl == Palette[24].imageUrl == "/images/stickers/camera.png"
    ensures Palette[7].imageUrl == Palette[29].imageUrl == "/images/stickers/sunglasses.png"
  {
  }

  /** A group with a single tag is either shown whole or hidden whole. */
  lemma FilterTagged(g: seq<Sticker>, tag: TimeOfDay, t: TimeOfDay)
    requires AllTagged(g, tag)
    ensures FilteredStickers(g, t) == if tag == t || tag == Anytime then g else []
  {
    if tag == t || tag == Anytime {
      Lists.FilterKeepsAll(g, (s: Sticker) => Shown(t, s));
    } else {
      Lists.FilterDropsAll(g, (s: Sticker) => Shown(t, s));
    }
  }

  /** The group of the four timed ones that belongs to tab `t`. */
  function Pick(t: TimeOfDay, m: seq<Sticker>, a: seq<Sticker>, e: seq<Sticker>, n: seq<Sticker>): seq<Sticker> {
    match t
    case Morning => m
    case Afternoon => a
    case Evening => e
    case Night => n
    case Anytime => []
  }

  /** Filtering five tagged groups under tab `t` keeps the tab's own group and the anytime group. */
  lemma FilterGroups(m: seq<Sticker>, a: seq<Sticker>, e: seq<Sticker>, n: seq<Sticker>, y: seq<Sticker>, t: TimeOfDay)
    requires AllTagged(m, Morning) && AllTagged(a, Afternoon) && AllTagged(e, Evening)
    requires AllTagged(n, Night) && AllTagged(y, Anytime)
    ensures FilteredStickers(m + a + e + n + y, t) == Pick(t, m, a, e, n) + y
  {
    FilterFive(m, a, e, n, y, t);
    FilterTagged(m, Morning, t);
    FilterTagged(a, Afternoon, t);
    FilterTagged(e, Evening, t);
    FilterTagged(n, Night, t);
    FilterTagged(y, Anytime, t);
    var fm, fa, fe, fn := FilteredStickers(m, t), FilteredStickers(a, t), FilteredStickers(e, t), FilteredStickers(n, t);
    calc {
      FilteredStickers(m + a + e + n + y, t);
      fm + fa + fe + fn + y;
      { DropEmpty(t, fm, fa, fe, fn, m, a, e, n, y); }
      Pick(t, m, a, e, n) + y;
    }
  }

  /** The concatenation step of `FilterGroups`, kept apart so the solver sees no literals. */
  lemma DropEmpty(t: TimeOfDay, fm: seq<Sticker>, fa: seq<Sticker>, fe: seq<Sticker>, fn: seq<Sticker>,
                  m: seq<Sticker>, a: seq<Sticker>, e: seq<Sticker>, n: seq<Sticker>, y: seq<Sticker>)
    requires fm == (if t == Morning then m else [])
    requires fa == (if t == Afternoon then a else [])
    requires fe == (if t == Evening then e else [])
    requires fn == (if t == Night then n else [])
    ensures fm + fa + fe + fn + y == Pick(t, m, a, e, n) + y
  {
    match t
    case Morning => assert fm + fa + fe + fn == m;
    case Afternoon => assert fm + fa + fe + fn == a;
    case Evening => assert fm + fa + fe + fn == e;
    case Night => assert fm + fa + fe + fn == n;
    case Anytime => assert fm + fa + fe + fn == [];
  }

  /** Filtering distributes over the five groups. */
  lemma FilterFive(m: seq<Sticker>, a: seq<Sticker>, e: seq<Sticker>, n: seq<Sticker>, y: seq<Sticker>, t: TimeOfDay)
    ensures FilteredStickers(m + a + e + n + y, t) ==
      FilteredStickers(m, t) + FilteredStickers(a, t) + FilteredStickers(e, t) + FilteredStickers(n, t) + FilteredStickers(y, t)
  {
    var p := (s: Sticker) => Shown(t, s);
    Lists.FilterAppend(m + a + e + n, y, p);
    Lists.FilterAppend(m + a + e, n, p);
    Lists.FilterAppend(m + a, e, p);
    Lists.FilterAppend(m, a, p);
  }

  /** The five stickers of a time of day; none of its own for "anytime". */
  function OwnGroup(t: TimeOfDay): seq<Sticker> {
    Pick(t, MorningStickers, AfternoonStickers, EveningStickers, NightStickers)
  }

  /** Under the "anytime" tab the palette shows exactly the ten anytime
      stickers; under any other tab, that time's five followed by the ten. */
  lemma PaletteTabs(t: TimeOfDay)
    ensures FilteredStickers(Palette, t) == OwnGroup(t) + AnytimeStickers
  {
    GroupsTagged();
    FilterGroups(MorningStickers, AfternoonStickers, EveningStickers, NightStickers, AnytimeStickers, t);
  }

  /** The palette holds 10 stickers under "anytime" and 15 under every other tab. */
  lemma PaletteTabSizes(t: TimeOfDay)
    ensures |FilteredStickers(Palette, t)| == if t == Anytime then 10 else 15
  {
    PaletteTabs(t);
  }

  /** The catalogue entries tagged exactly `t`. */
  function TaggedWith(stickers: seq<Sticker>, t: TimeOfDay): (r: seq<Sticker>)
    ensures forall i :: 0 <= i < |r| ==> r[i] in stickers && r[i].timeOfDay == t
    ensures forall i :: 0 <= i < |stickers| && stickers[i].timeOfDay == t ==> stickers[i] in r
  {
    Lists.Filter(stickers, (s: Sticker) => s.timeOfDay == t)
  }

  /** A group with a single tag is all tagged `t` or has nothing tagged `t`. */
  lemma TaggedGroup(g: seq<Sticker>, tag: TimeOfDay, t: TimeOfDay)
    requires AllTagged(g, tag)
    ensures TaggedWith(g, t) == if tag == t then g else []
  {
    if tag == t {
      Lists.FilterKeepsAll(g, (s: Sticker) => s.timeOfDay == t);
    } else {
      Lists.FilterDropsAll(g, (s: Sticker) => s.timeOfDay == t);
    }
  }

  /** Counting by tag over five single-tag groups: only the group tagged `t` contributes. */
  lemma TaggedGroups(m: seq<Sticker>, a: seq<Sticker>, e: seq<Sticker>, n: seq<Sticker>, y: seq<Sticker>, t: TimeOfDay)
    requires AllTagged(m, Morning) && AllTagged(a, Afternoon) && AllTagged(e, Evening)
    requires AllTagged(n, Night) && AllTagged(y, Anytime)
    ensures |TaggedWith(m + a + e + n + y, t)| == |Pick(t, m, a, e, n)| + (if t == Anytime then |y| else 0)
  {
    var p := (s: Sticker) => s.timeOfDay == t;
    Lists.FilterAppend(m + a + e + n, y, p);
    Lists.FilterAppend(m + a + e, n, p);
    Lists.FilterAppend(m + a, e, p);
    Lists.FilterAppend(m, a, p);
    TaggedGroup(m, Morning, t);
    TaggedGroup(a, Afternoon, t);
    TaggedGroup(e, Evening, t);
    TaggedGroup(n, Night, t);
    TaggedGroup(y, Anytime, t);
  }

  /** Five catalogue entries carry each time of day and ten carry "anytime". */
  lemma TagCounts(t: TimeOfDay)
    ensures |TaggedWith(Palette, t)| == if t == Anytime then 10 else 5
  {
    GroupsTagged();
    TaggedGroups(MorningStickers, AfternoonStickers, EveningStickers, NightStickers, AnytimeStickers, t);
  }
}
