/** The gallery's items (`PortfolioItem`, `portfolioItems`). */
module PortfolioData {

  /** The two categories an item can have. */
  datatype Category = Interior | Exterior

  /** One gallery image. */
  datatype PortfolioItem = PortfolioItem(src: string, alt: string, category: Category)

  /** The category as the string the page uses for it. */
  function CategoryName(c: Category): string {
    match c
    case Interior => "interior"
    case Exterior => "exterior"
  }

  /** No two items share a `src`, which the grid uses as its list key. */
  predicate DistinctSources(items: seq<PortfolioItem>) {
    forall i, j :: 0 <= i < j < |items| ==> items[i].src != items[j].src
  }

  /** How many items have category `c`. */
  function CountOf(items: seq<PortfolioItem>, c: Category): nat {
    if items == [] then 0
    else (if items[0].category == c then 1 else 0) + CountOf(items[1..], c)
  }

  const Items: seq<PortfolioItem> := [
    PortfolioItem("https://images.unsplash.com/photo-1556909114-f6e7ad7d3136?auto=format&fit=crop&w=1600&q=80",
      "Modern kitchen interior", Interior),
    PortfolioItem("https://images.unsplash.com/photo-1600585154340-be6161a56a0c?auto=format&fit=crop&w=1600&q=80",
      "Luxury exterior", Exterior),
    PortfolioItem("https://images.unsplash.com/photo-1616594039964-ae9021a400a0?auto=format&fit=crop&w=800&h=600",
      "Master bedroom interior", Interior),
    PortfolioItem("https://images.unsplash.com/photo-1584622650111-993a426fbf0a?auto=format&fit=crop&w=800&h=600",
      "Modern bathroom interior", Interior),
    PortfolioItem("https://images.unsplash.com/photo-1541558869434-2840d308329a?auto=format&fit=crop&w=800&h=600",
      "Home office interior", Interior),
    PortfolioItem("https://images.unsplash.com/photo-1604709177225-055f99402ea3?auto=format&fit=crop&w=800&h=600",
      "Dining room interior", Interior),
    PortfolioItem("https://images.unsplash.com/photo-1570129477492-45c003edd2be?auto=format&fit=crop&w=800&h=600",
      "Contemporary home exterior", Exterior),
    PortfolioItem("https://images.unsplash.com/photo-1613490493576-7fde63acd811?auto=format&fit=crop&w=800&h=600",
      "Modern two-story home", Exterior),
    PortfolioItem("https://images.unsplash.com/photo-1564013799919-ab600027ffc6?auto=format&fit=crop&w=800&h=600",
      "Luxury home with pool", Exterior),
    PortfolioItem("https://images.unsplash.com/photo-1605276374104-dee2a0ed3cd6?auto=format&fit=crop&w=800&h=600",
      "Suburban home exterior", Exterior),
    PortfolioItem("https://images.unsplash.com/photo-1560185893-a55cbc8c57e8?auto=format&fit=crop&w=800&h=600",
      "Craftsman style home", Exterior),
    PortfolioItem("https://images.unsplash.com/photo-1449824913935-59a10b8d2000?auto=format&fit=crop&w=800&h=600",
      "Commercial real estate", Exterior)
  ]

  /** Twelve items, five interior and seven exterior. */
  lemma ItemCounts()
    ensures |Items| == 12
    ensures CountOf(Items, Interior) == 5
    ensures CountOf(Items, Exterior) == 7
  {
    CountOfAppend(Items[..6], Items[6..], Interior);
    CountOfAppend(Items[..6], Items[6..], Exterior);
    assert Items == Items[..6] + Items[6..];
  }

  /** Counting distributes over concatenation. */
  lemma {:induction false} CountOfAppend(a: seq<PortfolioItem>, b: seq<PortfolioItem>, c: Category)
    ensures CountOf(a + b, c) == CountOf(a, c) + CountOf(b, c)
  {
    if a != [] {
      CountOfAppend(a[1..], b, c);
      assert (a + b)[1..] == a[1..] + b;
    } else {
      assert a + b == b;
    }
  }

  /** Every `src` is distinct. */
  lemma ItemSourcesDistinct()
    ensures DistinctSources(Items)
  {
  }
}
