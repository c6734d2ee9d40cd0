/** The slide slice: a current slide index moved by next/previous with
    clamping, and the area selection that every page change clears. */
module SlideSlice {
  import opened Common
  import opened StoreState

  /** `Math.min(i + 1, slides.length - 1)` */
  function NextIndex(i: int, n: nat): (r: int)
    ensures r <= i + 1 && r <= n - 1
    ensures r == i + 1 || r == n - 1
  {
    Min(i + 1, n - 1)
  }

  /** `Math.max(i - 1, 0)` */
  function PrevIndex(i: int): (r: int)
    ensures r >= i - 1 && r >= 0
    ensures r == i - 1 || r == 0
  {
    Max(i - 1, 0)
  }

  /** On a non-empty deck both moves keep a valid index valid; `next` stops
      at the last slide and `prev` at the first. */
  lemma NavigationStaysInDeck(i: int, n: nat)
    requires n >= 1 && 0 <= i < n
    ensures 0 <= NextIndex(i, n) < n && 0 <= PrevIndex(i) < n
    ensures NextIndex(i, n) == i <==> i == n - 1
    ensures PrevIndex(i) == i <==> i == 0
  {
  }

  /** Stepping forward then back returns to the slide, except from the last. */
  lemma NextThenPrev(i: int, n: nat)
    requires 0 <= i < n - 1
    ensures PrevIndex(NextIndex(i, n)) == i
  {
  }

  /** With no slides `next` moves to -1. */
  lemma NextOnEmptyDeck(i: int)
    ensures NextIndex(i, 0) == -1 || NextIndex(i, 0) == i + 1
    ensures i >= -1 ==> NextIndex(i, 0) == -1
  {
  }

  method SetCurrentSlideIndex(s: AppStore, index: int)
    modifies s`currentSlideIndex, s`activeSelection
    ensures s.currentSlideIndex == index && s.activeSelection == None
  {
    s.currentSlideIndex := index;
    s.activeSelection := None;
  }

  method NextSlide(s: AppStore)
    modifies s`currentSlideIndex, s`activeSelection
    ensures s.currentSlideIndex == NextIndex(old(s.currentSlideIndex), |s.slides|)
    ensures s.activeSelection == None
  {
    s.currentSlideIndex := Min(s.currentSlideIndex + 1, |s.slides| - 1);
    s.activeSelection := None;
  }

  method PrevSlide(s: AppStore)
    modifies s`currentSlideIndex, s`activeSelection
    ensures s.currentSlideIndex == PrevIndex(old(s.currentSlideIndex))
    ensures s.activeSelection == None
  {
    s.currentSlideIndex := Max(s.currentSlideIndex - 1, 0);
    s.activeSelection := None;
  }

  method SetSelectionMode(s: AppStore, mode: bool)
    modifies s`selectionMode
    ensures s.selectionMode == mode
  {
    s.selectionMode := mode;
  }

  method SetActiveSelection(s: AppStore, selection: Option<Selection>)
    modifies s`activeSelection
    ensures s.activeSelection == selection
  {
    s.activeSelection := selection;
  }

  method SetSlides(s: AppStore, slides: seq<Slide>)
    modifies s`slides
    ensures s.slides == slides
  {
    s.slides := slides;
  }

  method SetIsSlideMode(s: AppStore, on: bool)
    modifies s`isSlideMode
    ensures s.isSlideMode == on
  {
    s.isSlideMode := on;
  }

  method SetIsProcessingSlides(s: AppStore, processing: bool)
    modifies s`isProcessingSlides
    ensures s.isProcessingSlides == processing
  {
    s.isProcessingSlides := processing;
  }

  method SetRenderingProgress(s: AppStore, progress: real)
    modifies s`renderingProgress
    ensures s.renderingProgress == progress
  {
    s.renderingProgress := progress;
  }
}
