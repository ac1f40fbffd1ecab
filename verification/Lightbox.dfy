/** The lightbox modal: a current index into the images it was given, moved
    cyclically by the previous and next buttons. */
module Lightbox {
  import opened Wrappers
  import opened PortfolioData

  /** JavaScript's `a % n` for a positive `n`: the remainder takes the sign
      of `a`. */
  function JsRem(a: int, n: int): (r: int)
    requires n > 0
    ensures a >= 0 ==> 0 <= r < n && r == a % n
    ensures a < 0 ==> -n < r <= 0
  {
    if a >= 0 then a % n else -((-a) % n)
  }

  /** `(prev + 1) % images.length`. */
  function Next(i: int, n: int): (r: int)
    requires n > 0
    ensures 0 <= i < n ==> 0 <= r < n
    ensures 0 <= i < n - 1 ==> r == i + 1
    ensures i == n - 1 ==> r == 0
  {
    JsRem(i + 1, n)
  }

  /** `(prev - 1 + images.length) % images.length`. */
  function Prev(i: int, n: int): (r: int)
    requires n > 0
    ensures 0 <= i < n ==> 0 <= r < n
    ensures 0 < i < n ==> r == i - 1
    ensures i == 0 ==> r == n - 1
  {
    JsRem(i - 1 + n, n)
  }

  /** Previous undoes next and next undoes previous. */
  lemma PrevNextInverse(i: int, n: int)
    requires 0 <= i < n
    ensures Prev(Next(i, n), n) == i
    ensures Next(Prev(i, n), n) == i
  {
  }

  /** `k` presses of next. */
  function NextTimes(i: int, n: int, k: nat): (r: int)
    requires n > 0
    ensures 0 <= i < n ==> 0 <= r < n
  {
    if k == 0 then i else Next(NextTimes(i, n, k - 1), n)
  }

  /** Up to `n` presses of next move the index that many places round the ring. */
  lemma {:induction false} NextTimesOffset(i: int, n: int, k: nat)
    requires 0 <= i < n
    requires k <= n
    ensures NextTimes(i, n, k) == if i + k < n then i + k else i + k - n
  {
    if k > 0 {
      NextTimesOffset(i, n, k - 1);
    }
  }

  /** `n` presses of next return to the starting image. */
  lemma FullCycle(i: int, n: int)
    requires 0 <= i < n
    ensures NextTimes(i, n, n) == i
  {
    NextTimesOffset(i, n, n);
  }

  /** The mounted modal: the images it was given and `currentIndex`. */
  datatype Modal = Modal(images: seq<PortfolioItem>, current: int)

  /** `useState(startIndex)`. */
  function Mount(images: seq<PortfolioItem>, startIndex: int): (r: Modal)
    ensures r.images == images
    ensures Shown(r) <==> 0 <= startIndex < |images|
    ensures Shown(r) ==> r.images[r.current] == images[startIndex]
  {
    Modal(images, startIndex)
  }

  /** `images[currentIndex] && ...`: the modal shows anything only when the
      index names one of its images. */
  predicate Shown(m: Modal) {
    0 <= m.current < |m.images|
  }

  /** The image on screen, if any. */
  function Displayed(m: Modal): (r: Option<PortfolioItem>)
    ensures r.Some? <==> Shown(m)
    ensures r.Some? ==> r.value in m.images
  {
    if Shown(m) then Some(m.images[m.current]) else None
  }

  /** Mounting shows the start image, and shows nothing for an empty list or
      an out-of-range start. */
  lemma MountDisplays(images: seq<PortfolioItem>, startIndex: int)
    ensures Mount(images, startIndex).current == startIndex
    ensures Displayed(Mount(images, startIndex)).Some? <==> 0 <= startIndex < |images|
    ensures 0 <= startIndex < |images| ==> Displayed(Mount(images, startIndex)) == Some(images[startIndex])
    ensures images == [] ==> Displayed(Mount(images, startIndex)).None?
  {
  }

  datatype Button = PrevButton | NextButton

  /** A button press. The buttons are drawn only while an image is shown;
      otherwise nothing changes. */
  function Press(m: Modal, b: Button): (r: Modal)
    ensures r.images == m.images
    ensures Shown(m) <==> Shown(r)
    ensures !Shown(m) ==> r == m
    ensures Shown(m) && b == NextButton ==>
      r.current == (if m.current == |m.images| - 1 then 0 else m.current + 1)
    ensures Shown(m) && b == PrevButton ==>
      r.current == (if m.current == 0 then |m.images| - 1 else m.current - 1)
  {
    if !Shown(m) then m
    else match b
      case PrevButton => Modal(m.images, Prev(m.current, |m.images|))
      case NextButton => Modal(m.images, Next(m.current, |m.images|))
  }

  /** The modal after a run of presses. */
  function PressAll(m: Modal, bs: seq<Button>): Modal
    decreases |bs|
  {
    if bs == [] then m else PressAll(Press(m, bs[0]), bs[1..])
  }

  /** A modal that shows an image keeps showing one, whatever is pressed. */
  lemma {:induction false} PressAllKeepsShown(m: Modal, bs: seq<Button>)
    requires Shown(m)
    ensures Shown(PressAll(m, bs))
    ensures PressAll(m, bs).images == m.images
    decreases |bs|
  {
    if bs != [] {
      PressAllKeepsShown(Press(m, bs[0]), bs[1..]);
    }
  }

  /** Pressing next once per image brings the modal back to where it started. */
  lemma {:induction false} NextRoundTrip(m: Modal, bs: seq<Button>)
    requires Shown(m)
    requires |bs| == |m.images|
    requires forall k :: 0 <= k < |bs| ==> bs[k] == NextButton
    ensures PressAll(m, bs) == m
  {
    PressPrefix(m, bs, |bs|);
    FullCycle(m.current, |m.images|);
  }

  lemma {:induction false} PressPrefix(m: Modal, bs: seq<Button>, k: nat)
    requires Shown(m)
    requires k <= |bs|
    requires forall j :: 0 <= j < |bs| ==> bs[j] == NextButton
    ensures PressAll(m, bs) == PressAll(Modal(m.images, NextTimes(m.current, |m.images|, k)), bs[k..])
  {
    if k > 0 {
      PressPrefix(m, bs, k - 1);
      var n := |m.images|;
      var mj := Modal(m.images, NextTimes(m.current, n, k - 1));
      var rest := bs[k - 1..];
      assert rest[0] == NextButton && rest[1..] == bs[k..];
      assert Press(mj, NextButton) == Modal(m.images, NextTimes(m.current, n, k));
    } else {
      assert bs[0..] == bs;
    }
  }
}
