/** The gallery section: the category filter over the items, the filter
    buttons' labels, and which image the lightbox was opened on. */
module Portfolio {
  import opened Wrappers
  import opened JsText
  import opened PortfolioData
  import Lightbox

  /** `selectedCategory`: everything, or one category. */
  datatype Selection = All | Only(category: Category)

  /** The selection as the string the page uses for it. */
  function SelectionName(s: Selection): string {
    match s
    case All => "all"
    case Only(c) => CategoryName(c)
  }

  /** The filter buttons, in the order they are drawn. */
  const Buttons: seq<Selection> := [All, Only(Interior), Only(Exterior)]

  /** A button's text: its name with the first character upper-cased. */
  function Label(s: Selection): (r: string)
    ensures |r| == |SelectionName(s)| > 0
    ensures r[0] == UpperChar(SelectionName(s)[0])
    ensures r[1..] == SelectionName(s)[1..]
  {
    Capitalize(SelectionName(s))
  }

  lemma ButtonLabels()
    ensures |Buttons| == 3
    ensures [Label(Buttons[0]), Label(Buttons[1]), Label(Buttons[2])] == ["All", "Interior", "Exterior"]
    ensures Label(All) == "All"
    ensures Label(Only(Interior)) == "Interior"
    ensures Label(Only(Exterior)) == "Exterior"
  {
    assert Buttons[0] == All && Buttons[1] == Only(Interior) && Buttons[2] == Only(Exterior);
    assert Label(All) == "All" && Label(Only(Interior)) == "Interior" && Label(Only(Exterior)) == "Exterior";
  }

  /** `a` is `b` with some elements left out and the rest in their order. */
  predicate IsSubsequence<T(==)>(a: seq<T>, b: seq<T>)
    decreases |b|
  {
    if a == [] then true
    else if b == [] then false
    else if a[0] == b[0] then IsSubsequence(a[1..], b[1..])
    else IsSubsequence(a, b[1..])
  }

  lemma {:induction false} SubsequenceOfSelf<T>(a: seq<T>)
    ensures IsSubsequence(a, a)
    decreases |a|
  {
    if a != [] {
      SubsequenceOfSelf(a[1..]);
    }
  }

  /** `items.filter(item => item.category === c)`. */
  function KeepCategory(items: seq<PortfolioItem>, c: Category): (r: seq<PortfolioItem>)
    ensures |r| <= |items|
    ensures forall k :: 0 <= k < |r| ==> r[k].category == c
    ensures forall k :: 0 <= k < |items| && items[k].category == c ==> items[k] in r
    ensures forall x :: x in r ==> x in items
    ensures IsSubsequence(r, items)
    ensures |r| == CountOf(items, c)
  {
    if items == [] then []
    else
      var rest := KeepCategory(items[1..], c);
      assert forall k :: 1 <= k < |items| ==> items[k] == items[1..][k - 1];
      if items[0].category == c then [items[0]] + rest
      else rest
  }

  /** Whether an item of category `c` belongs in the view `s`. */
  predicate Selects(s: Selection, c: Category) {
    s.All? || s.category == c
  }

  /** `filteredItems`: the items the selection lets through, in their order. */
  function Filtered(items: seq<PortfolioItem>, s: Selection): (r: seq<PortfolioItem>)
    ensures IsSubsequence(r, items)
    ensures forall k :: 0 <= k < |r| ==> Selects(s, r[k].category)
    ensures forall k :: 0 <= k < |items| && Selects(s, items[k].category) ==> items[k] in r
    ensures s.All? ==> r == items
    ensures s.Only? ==> |r| == CountOf(items, s.category)
  {
    match s
    case All => SubsequenceOfSelf(items); items
    case Only(c) => KeepCategory(items, c)
  }

  /** Each item lands in exactly one of the two category views, so their sizes
      add up to the whole list. */
  lemma {:induction false} CategoriesPartition(items: seq<PortfolioItem>)
    ensures |KeepCategory(items, Interior)| + |KeepCategory(items, Exterior)| == |items|
    ensures multiset(KeepCategory(items, Interior)) + multiset(KeepCategory(items, Exterior)) == multiset(items)
  {
    if items != [] {
      CategoriesPartition(items[1..]);
      assert items == [items[0]] + items[1..];
    }
  }

  /** On the site's own items the interior view has five images and the exterior view seven. */
  lemma FilteredSizes()
    ensures Filtered(Items, All) == Items
    ensures |Filtered(Items, Only(Interior))| == 5
    ensures |Filtered(Items, Only(Exterior))| == 7
  {
    ItemCounts();
  }

  /** The lightbox while it is mounted: `index` is `lightboxIndex`, the grid
      position it was last set to, and `current` is the modal's own
      `currentIndex`, which it keeps for as long as it stays mounted. */
  datatype Open = Open(index: int, current: int)

  /** The page state: the selected filter and the lightbox (`None` while
      `lightboxIndex` is null and no modal is mounted). */
  datatype View = View(selected: Selection, lightbox: Option<Open>)

  /** What the visitor can do: activate a filter button, click the
      `index`-th image of the grid, close the lightbox, or press one of its
      arrows. */
  datatype Event = Select(selection: Selection) | ClickImage(index: int) | Close | Press(button: Lightbox.Button)

  const Initial := View(All, None)

  /* The page below is stated over any list of items; the site renders it
     with `Items`. */

  /** The mounted modal: it is given the current view's items and shows its
      own current index into them. */
  function ModalOf(items: seq<PortfolioItem>, v: View): Option<Lightbox.Modal> {
    match v.lightbox
    case None => None
    case Some(o) => Some(Lightbox.Modal(Filtered(items, v.selected), o.current))
  }

  /** The modal's full-screen overlay is drawn: it covers the grid and the
      filter buttons from the pointer, and its own buttons exist. */
  predicate Covered(items: seq<PortfolioItem>, v: View) {
    ModalOf(items, v).Some? && Lightbox.Shown(ModalOf(items, v).value)
  }

  /** One event; `None` when it cannot happen in `v`. The filter buttons can
      always be activated (under the overlay, from the keyboard). A grid image
      can be clicked only when the overlay is not drawn and there is an image at
      that position; a new `lightboxIndex` does not reset a mounted modal's
      `currentIndex`. The close and arrow buttons exist only while the overlay
      is drawn. */
  function Step(items: seq<PortfolioItem>, v: View, e: Event): (r: Option<View>)
    ensures e.Select? ==> r == Some(View(e.selection, v.lightbox))
    ensures e.ClickImage? ==> (r.Some? <==> !Covered(items, v) && 0 <= e.index < |Filtered(items, v.selected)|)
    ensures e.ClickImage? && r.Some? && v.lightbox.None? ==>
      r.value == View(v.selected, Some(Open(e.index, e.index)))
    ensures e.ClickImage? && r.Some? && v.lightbox.Some? ==>
      r.value == View(v.selected, Some(Open(e.index, v.lightbox.value.current)))
    ensures e.Close? ==> (r.Some? <==> Covered(items, v))
    ensures e.Close? && r.Some? ==> r.value == View(v.selected, None)
    ensures e.Press? ==> (r.Some? <==> Covered(items, v))
    ensures e.Press? && r.Some? ==>
      && r.value.selected == v.selected
      && r.value.lightbox.Some?
      && r.value.lightbox.value.index == v.lightbox.value.index
      && ModalOf(items, r.value) == Some(Lightbox.Press(ModalOf(items, v).value, e.button))
  {
    match e
    case Select(s) => Some(View(s, v.lightbox))
    case ClickImage(i) =>
      if !Covered(items, v) && 0 <= i < |Filtered(items, v.selected)| then
        match v.lightbox
        case None =>
          var m := Lightbox.Mount(Filtered(items, v.selected), i);
          Some(View(v.selected, Some(Open(i, m.current))))
        case Some(o) => Some(View(v.selected, Some(Open(i, o.current))))
      else None
    case Close =>
      if Covered(items, v) then Some(View(v.selected, None)) else None
    case Press(b) =>
      if Covered(items, v) then
        var m := Lightbox.Press(ModalOf(items, v).value, b);
        Some(View(v.selected, Some(Open(v.lightbox.value.index, m.current))))
      else None
  }

  /** The state after a run of events, or `None` if one of them could not happen. */
  function Run(items: seq<PortfolioItem>, v: View, events: seq<Event>): Option<View>
    decreases |events|
  {
    if events == [] then Some(v)
    else match Step(items, v, events[0])
      case None => None
      case Some(w) => Run(items, w, events[1..])
  }

  lemma RunFirst(items: seq<PortfolioItem>, v: View, e: Event, rest: seq<Event>, w: View)
    requires Step(items, v, e) == Some(w)
    ensures Run(items, v, [e] + rest) == Run(items, w, rest)
  {
    assert ([e] + rest)[1..] == rest;
  }

  /** Both lightbox indices are positions in the full list of items. */
  predicate InRange(items: seq<PortfolioItem>, v: View) {
    v.lightbox.Some? ==> 0 <= v.lightbox.value.index < |items| && 0 <= v.lightbox.value.current < |items|
  }

  /** A mounted lightbox has its overlay drawn: its current index names an
      image of the view it is given. */
  predicate Coherent(items: seq<PortfolioItem>, v: View) {
    v.lightbox.Some? ==> Covered(items, v)
  }

  /** Opening the lightbox from the grid mounts the modal on the clicked
      position of the filtered view, so it shows the clicked image. */
  lemma OpenLightboxShowsClicked(items: seq<PortfolioItem>, v: View, i: int)
    requires v.lightbox.None?
    requires 0 <= i < |Filtered(items, v.selected)|
    ensures Step(items, v, ClickImage(i)).Some?
    ensures var w := Step(items, v, ClickImage(i)).value;
      && ModalOf(items, w) == Some(Lightbox.Mount(Filtered(items, v.selected), i))
      && Covered(items, w)
      && Lightbox.Displayed(ModalOf(items, w).value) == Some(Filtered(items, v.selected)[i])
  {
  }

  /** Whatever happens, both lightbox indices stay positions in the full list. */
  lemma {:induction false} RunKeepsInRange(items: seq<PortfolioItem>, v: View, events: seq<Event>)
    requires InRange(items, v)
    ensures Run(items, v, events).Some? ==> InRange(items, Run(items, v, events).value)
    decreases |events|
  {
    if events != [] {
      var w := Step(items, v, events[0]);
      if w.Some? {
        assert InRange(items, w.value) by {
          FilteredNoLonger(items, v.selected);
        }
        RunKeepsInRange(items, w.value, events[1..]);
      }
    }
  }

  lemma FilteredNoLonger(items: seq<PortfolioItem>, s: Selection)
    ensures |Filtered(items, s)| <= |items|
  {
    if s.Only? {
      CategoriesPartition(items);
    }
  }

  /** From the initial page, both lightbox indices always stay positions in the list. */
  lemma ReachableInRange(items: seq<PortfolioItem>, events: seq<Event>)
    ensures Run(items, Initial, events).Some? ==> InRange(items, Run(items, Initial, events).value)
  {
    RunKeepsInRange(items, Initial, events);
  }

  /** An event a pointer can reach: a filter button is not under the overlay. */
  predicate PointerEvent(items: seq<PortfolioItem>, v: View, e: Event) {
    !(e.Select? && Covered(items, v))
  }

  /** Every event of the run can be reached by the pointer in the state it happens in. */
  predicate PointerRun(items: seq<PortfolioItem>, v: View, events: seq<Event>)
    decreases |events|
  {
    if events == [] then true
    else PointerEvent(items, v, events[0]) && match Step(items, v, events[0])
      case None => true
      case Some(w) => PointerRun(items, w, events[1..])
  }

  /** Driven by the pointer alone, a mounted lightbox always shows an image
      of the view it is given. */
  lemma {:induction false} PointerRunKeepsCoherent(items: seq<PortfolioItem>, v: View, events: seq<Event>)
    requires Coherent(items, v)
    requires PointerRun(items, v, events)
    ensures Run(items, v, events).Some? ==> Coherent(items, Run(items, v, events).value)
    decreases |events|
  {
    if events != [] {
      var w := Step(items, v, events[0]);
      if w.Some? {
        assert Coherent(items, w.value) by {
          if events[0].Press? {
            var m := ModalOf(items, v).value;
            assert Lightbox.Shown(Lightbox.Press(m, events[0].button));
          }
        }
        PointerRunKeepsCoherent(items, w.value, events[1..]);
      }
    }
  }

  /** A filter button activated from the keyboard under the overlay keeps the
      modal mounted with its `currentIndex`. When the new view has no image at
      that index the modal shows nothing, and clicking any image of the new
      grid still shows nothing. */
  lemma StaleLightboxAfterFilter(items: seq<PortfolioItem>, v: View, s: Selection, k: int)
    requires Covered(items, v)
    requires |Filtered(items, s)| <= v.lightbox.value.current
    requires 0 <= k < |Filtered(items, s)|
    ensures var w := View(s, Some(Open(k, v.lightbox.value.current)));
      && Run(items, v, [Select(s), ClickImage(k)]) == Some(w)
      && !Coherent(items, w)
      && Lightbox.Displayed(ModalOf(items, w).value).None?
  {
    var c := v.lightbox.value.current;
    var v2 := View(s, Some(Open(v.lightbox.value.index, c)));
    var w := View(s, Some(Open(k, c)));
    assert Step(items, v, Select(s)) == Some(v2);
    assert !Covered(items, v2);
    assert Step(items, v2, ClickImage(k)) == Some(w);
    RunFirst(items, v2, ClickImage(k), [], w);
    RunFirst(items, v, Select(s), [ClickImage(k)], v2);
    assert [Select(s), ClickImage(k)] == [Select(s)] + [ClickImage(k)];
  }

  /** The site's own items meet those premises: clicking image 10 of "all"
      opens the lightbox showing it, and the interior view has only five
      images, so activating Interior from the keyboard leaves the modal at
      index 10 showing nothing. */
  lemma StaleLightboxExample()
    ensures Step(Items, Initial, ClickImage(10)) == Some(View(All, Some(Open(10, 10))))
    ensures Covered(Items, View(All, Some(Open(10, 10))))
    ensures |Filtered(Items, Only(Interior))| == 5
  {
    FilteredSizes();
  }

  /** The filter change closing the lightbox as well (`setLightboxIndex(null)`
      beside `setSelectedCategory`). */
  function StepReset(items: seq<PortfolioItem>, v: View, e: Event): (r: Option<View>)
    ensures e.Select? ==> r == Some(View(e.selection, None))
    ensures !e.Select? ==> r == Step(items, v, e)
    ensures Coherent(items, v) && r.Some? ==> Coherent(items, r.value)
  {
    if e.Select? then Some(View(e.selection, None)) else Step(items, v, e)
  }

  function RunReset(items: seq<PortfolioItem>, v: View, events: seq<Event>): Option<View>
    decreases |events|
  {
    if events == [] then Some(v)
    else match StepReset(items, v, events[0])
      case None => None
      case Some(w) => RunReset(items, w, events[1..])
  }

  /** With the reset, every run keeps a mounted lightbox showing an image of
      its view, keyboard included. */
  lemma {:induction false} RunResetKeepsCoherent(items: seq<PortfolioItem>, v: View, events: seq<Event>)
    requires Coherent(items, v)
    ensures RunReset(items, v, events).Some? ==> Coherent(items, RunReset(items, v, events).value)
    decreases |events|
  {
    if events != [] {
      var w := StepReset(items, v, events[0]);
      if w.Some? {
        assert Coherent(items, w.value) by {
          if events[0].Press? {
            var m := ModalOf(items, v).value;
            assert Lightbox.Shown(Lightbox.Press(m, events[0].button));
          }
        }
        RunResetKeepsCoherent(items, w.value, events[1..]);
      }
    }
  }

  /** With the reset, in every reachable state a mounted lightbox shows an image. */
  lemma ResetReachableShown(items: seq<PortfolioItem>, events: seq<Event>)
    ensures RunReset(items, Initial, events).Some? && RunReset(items, Initial, events).value.lightbox.Some? ==>
      Lightbox.Displayed(ModalOf(items, RunReset(items, Initial, events).value).value).Some?
  {
    RunResetKeepsCoherent(items, Initial, events);
  }
}
