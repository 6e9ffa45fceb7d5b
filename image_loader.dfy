/**
 * The image-loading hook: decides the initial status of an image load,
 * keeps a reference to the browser image being loaded, and moves the status
 * to loaded or failed when the browser reports the outcome.
 */
module ImageLoader {
  import opened Wrappers

  datatype ImgLoadingStatus = Loading | Failed | Pending | Loaded

  datatype FallbackStrategy = OnError | BeforeLoadOrError

  /** Whether a fallback image is shown for a load status under a strategy. */
  function ShouldShowFallbackImage(status: ImgLoadingStatus, strategy: FallbackStrategy): (r: bool)
    ensures strategy == BeforeLoadOrError ==> (r <==> status != Loaded)
    ensures strategy == OnError ==> (r <==> status == Failed)
  {
    (status != Loaded && strategy == BeforeLoadOrError) || (status == Failed && strategy == OnError)
  }

  /** A loaded image never shows a fallback. */
  lemma LoadedHidesFallback(strategy: FallbackStrategy)
    ensures !ShouldShowFallbackImage(Loaded, strategy)
  {
  }

  /** `beforeLoadOrError` shows the fallback whenever `onError` does, and also while pending or loading. */
  lemma BeforeLoadOrErrorCoversOnError(status: ImgLoadingStatus)
    ensures ShouldShowFallbackImage(status, OnError) ==> ShouldShowFallbackImage(status, BeforeLoadOrError)
    ensures ShouldShowFallbackImage(status, BeforeLoadOrError) && !ShouldShowFallbackImage(status, OnError)
      <==> status == Pending || status == Loading
  {
  }

  /** `load()` builds a browser image only for a present source with fallback logic and loading enabled. */
  predicate CreatesImage(src: Option<string>, ignoreFallback: bool, shouldBypassImageLoad: bool)
  {
    Truthy(src) && !ignoreFallback && !shouldBypassImageLoad
  }

  /**
   * The status `load()` returns; `complete` and `naturalWidth` are what the
   * browser reports for the new image right after its source is set.
   */
  function LoadStatus(src: Option<string>, ignoreFallback: bool, shouldBypassImageLoad: bool,
                      complete: bool, naturalWidth: nat): (r: ImgLoadingStatus)
    ensures !Truthy(src) ==> r == Pending
    ensures Truthy(src) && (ignoreFallback || shouldBypassImageLoad) ==> r == Loaded
    ensures CreatesImage(src, ignoreFallback, shouldBypassImageLoad) ==>
      (r == Loaded <==> complete && naturalWidth != 0) && (r == Loaded || r == Loading)
    ensures r != Failed
  {
    if !Truthy(src) then Pending
    else if ignoreFallback || shouldBypassImageLoad then Loaded
    else if complete && naturalWidth != 0 then Loaded
    else Loading
  }

  /** The browser's image object, reduced to the flags the hook reads and writes. */
  class HtmlImage {
    var src: string
    var complete: bool
    var naturalWidth: nat
    var hasOnLoad: bool
    var hasOnError: bool

    constructor (src: string, complete: bool, naturalWidth: nat)
      ensures this.src == src && this.complete == complete && this.naturalWidth == naturalWidth
      ensures !hasOnLoad && !hasOnError
    {
      this.src := src;
      this.complete := complete;
      this.naturalWidth := naturalWidth;
      hasOnLoad := false;
      hasOnError := false;
    }
  }

  /**
   * One instance of the hook. The props are those of the latest render;
   * `notified` lists, in order, every status passed to
   * `onLoadingStatusChange`.
   */
  class ImageHook {
    var src: Option<string>
    var ignoreFallback: bool
    var shouldBypassImageLoad: bool
    var status: ImgLoadingStatus
    var imageRef: HtmlImage?
    var notified: seq<ImgLoadingStatus>

    /**
     * The listener has always been told the current status, and the current
     * image carries either both handlers or neither.
     */
    ghost predicate Valid()
      reads this, imageRef
    {
      (notified == [] ==> status == Pending)
      && (notified != [] ==> status == notified[|notified| - 1])
      && (imageRef != null ==> imageRef.hasOnLoad == imageRef.hasOnError)
    }

    /** First render: status pending, and a blank image only once hydrated. */
    constructor (src: Option<string>, ignoreFallback: bool, shouldBypassImageLoad: bool, isHydrated: bool)
      ensures Valid()
      ensures this.src == src && this.ignoreFallback == ignoreFallback
      ensures this.shouldBypassImageLoad == shouldBypassImageLoad
      ensures status == Pending && notified == []
      ensures imageRef != null <==> isHydrated
      ensures imageRef != null ==> fresh(imageRef) && !imageRef.hasOnLoad && !imageRef.hasOnError
      ensures imageRef != null ==> imageRef.src == "" && imageRef.complete && imageRef.naturalWidth == 0
    {
      this.src := src;
      this.ignoreFallback := ignoreFallback;
      this.shouldBypassImageLoad := shouldBypassImageLoad;
      status := Pending;
      notified := [];
      if isHydrated {
        imageRef := new HtmlImage("", true, 0);
      } else {
        imageRef := null;
      }
    }

    /** The value the hook returns. */
    function Result(): (r: ImgLoadingStatus)
      reads this
      ensures ignoreFallback ==> r == Loaded
      ensures !ignoreFallback ==> r == status
    {
      if ignoreFallback then Loaded else status
    }

    /** A later render with new props; the status and the image are kept. */
    method Rerender(src': Option<string>, ignoreFallback': bool, shouldBypassImageLoad': bool)
      requires Valid()
      modifies this`src, this`ignoreFallback, this`shouldBypassImageLoad
      ensures Valid()
      ensures src == src' && ignoreFallback == ignoreFallback' && shouldBypassImageLoad == shouldBypassImageLoad'
    {
      src, ignoreFallback, shouldBypassImageLoad := src', ignoreFallback', shouldBypassImageLoad';
    }

    /** The effect that runs when the current image changes: attach both handlers to it. */
    method AttachHandlers()
      requires Valid()
      modifies imageRef
      ensures Valid()
      ensures imageRef != null ==> imageRef.hasOnLoad && imageRef.hasOnError
      ensures imageRef != null ==>
        (imageRef.src == old(imageRef.src) && imageRef.complete == old(imageRef.complete)
         && imageRef.naturalWidth == old(imageRef.naturalWidth))
    {
      if imageRef != null {
        imageRef.hasOnLoad := true;
        imageRef.hasOnError := true;
      }
    }

    /** `flush()`: detach the current image's handlers and drop the reference; nothing when there is none. */
    method Flush()
      requires Valid()
      modifies this`imageRef, imageRef
      ensures Valid()
      ensures imageRef == null
      ensures old(imageRef) != null ==> !old(imageRef).hasOnLoad && !old(imageRef).hasOnError
      ensures old(imageRef) != null ==>
        (old(imageRef).src == old(imageRef.src) && old(imageRef).complete == old(imageRef.complete)
         && old(imageRef).naturalWidth == old(imageRef.naturalWidth))
    {
      if imageRef != null {
        imageRef.hasOnLoad := false;
        imageRef.hasOnError := false;
        imageRef := null;
      }
    }

    /** `load()`: decide the status and, when an image is needed, create it and keep it as the current one. */
    method Load(complete: bool, naturalWidth: nat) returns (r: ImgLoadingStatus)
      requires Valid()
      modifies this`imageRef
      ensures Valid()
      ensures r == LoadStatus(src, ignoreFallback, shouldBypassImageLoad, complete, naturalWidth)
      ensures CreatesImage(src, ignoreFallback, shouldBypassImageLoad) ==>
        imageRef != null && fresh(imageRef) && imageRef.src == src.value
        && imageRef.complete == complete && imageRef.naturalWidth == naturalWidth
        && !imageRef.hasOnLoad && !imageRef.hasOnError
      ensures !CreatesImage(src, ignoreFallback, shouldBypassImageLoad) ==> imageRef == old(imageRef)
    {
      if !Truthy(src) {
        return Pending;
      }
      if ignoreFallback || shouldBypassImageLoad {
        return Loaded;
      }
      var img := new HtmlImage(src.value, complete, naturalWidth);
      imageRef := img;
      if img.complete && img.naturalWidth != 0 {
        return Loaded;
      }
      return Loading;
    }

    /** The layout effect: once hydrated, run `load()`, store its status and report it. */
    method LayoutEffect(isHydrated: bool, complete: bool, naturalWidth: nat)
      requires Valid()
      modifies this`imageRef, this`status, this`notified
      ensures Valid()
      ensures isHydrated ==>
        status == LoadStatus(src, ignoreFallback, shouldBypassImageLoad, complete, naturalWidth)
        && notified == old(notified) + [status]
      ensures isHydrated && CreatesImage(src, ignoreFallback, shouldBypassImageLoad) ==>
        imageRef != null && fresh(imageRef) && !imageRef.hasOnLoad && !imageRef.hasOnError
        && src.Some? && imageRef.src == src.value
        && imageRef.complete == complete && imageRef.naturalWidth == naturalWidth
      ensures !(isHydrated && CreatesImage(src, ignoreFallback, shouldBypassImageLoad)) ==> imageRef == old(imageRef)
      ensures !isHydrated ==> status == old(status) && notified == old(notified)
    {
      if isHydrated {
        var s := Load(complete, naturalWidth);
        status := s;
        notified := notified + [s];
      }
    }

    /** The browser fires `load` on `img`: its handler, if still attached, flushes and reports `loaded`. */
    method FireLoad(img: HtmlImage)
      requires Valid()
      modifies this`imageRef, this`status, this`notified, imageRef
      ensures Valid()
      ensures old(img.hasOnLoad) ==>
        status == Loaded && notified == old(notified) + [Loaded] && imageRef == null
        && (old(imageRef) != null ==> !old(imageRef).hasOnLoad && !old(imageRef).hasOnError)
      ensures !old(img.hasOnLoad) ==>
        status == old(status) && notified == old(notified) && imageRef == old(imageRef)
        && (imageRef != null ==> imageRef.hasOnLoad == old(imageRef.hasOnLoad))
      ensures old(imageRef) != null ==>
        (old(imageRef).src == old(imageRef.src) && old(imageRef).complete == old(imageRef.complete)
         && old(imageRef).naturalWidth == old(imageRef.naturalWidth))
    {
      if img.hasOnLoad {
        Flush();
        status := Loaded;
        notified := notified + [Loaded];
      }
    }

    /** The browser fires `error` on `img`: its handler, if still attached, flushes and reports `failed`. */
    method FireError(img: HtmlImage)
      requires Valid()
      modifies this`imageRef, this`status, this`notified, imageRef
      ensures Valid()
      ensures old(img.hasOnError) ==>
        status == Failed && notified == old(notified) + [Failed] && imageRef == null
        && (old(imageRef) != null ==> !old(imageRef).hasOnLoad && !old(imageRef).hasOnError)
      ensures !old(img.hasOnError) ==>
        status == old(status) && notified == old(notified) && imageRef == old(imageRef)
        && (imageRef != null ==> imageRef.hasOnError == old(imageRef.hasOnError))
      ensures old(imageRef) != null ==>
        (old(imageRef).src == old(imageRef.src) && old(imageRef).complete == old(imageRef.complete)
         && old(imageRef).naturalWidth == old(imageRef.naturalWidth))
    {
      if img.hasOnError {
        Flush();
        status := Failed;
        notified := notified + [Failed];
      }
    }
  }

  /** Flushing twice leaves the same state as flushing once. */
  method FlushTwice(h: ImageHook)
    requires h.Valid()
    modifies h`imageRef, h.imageRef
    ensures h.Valid() && h.imageRef == null
    ensures old(h.imageRef) != null ==> !old(h.imageRef).hasOnLoad && !old(h.imageRef).hasOnError
    ensures old(h.imageRef) != null ==>
      (old(h.imageRef).src == old(h.imageRef.src) && old(h.imageRef).complete == old(h.imageRef.complete)
       && old(h.imageRef).naturalWidth == old(h.imageRef.naturalWidth))
  {
    h.Flush();
    h.Flush();
  }

  /**
   * A slow image: the layout effect reports `loading`, the effect attaches
   * the handlers, and the browser's `load` event then reports `loaded` and
   * releases the image.
   */
  method ScenarioSlowLoad() returns (first: ImgLoadingStatus, last: ImgLoadingStatus, reported: seq<ImgLoadingStatus>)
    ensures first == Loading && last == Loaded && reported == [Loading, Loaded]
  {
    var h := new ImageHook(Some("a.png"), false, false, true);
    h.LayoutEffect(true, false, 0);
    first := h.Result();
    var img := h.imageRef;
    h.AttachHandlers();
    h.FireLoad(img);
    last := h.Result();
    reported := h.notified;
    assert h.imageRef == null;
  }

  /**
   * A source change while the first image is still loading: the new image
   * becomes current, yet the first image's handlers stay attached, so its
   * late `load` event reports `loaded` and flushes the NEW image, detaching
   * its handlers if the effect had attached them; its own `error` then goes
   * unnoticed either way.
   */
  method ScenarioStaleImage() returns (last: ImgLoadingStatus, reported: seq<ImgLoadingStatus>)
    ensures last == Loaded && reported == [Loading, Loading, Loaded]
  {
    var h := new ImageHook(Some("a.png"), false, false, true);
    h.LayoutEffect(true, false, 0);
    var first := h.imageRef;
    h.AttachHandlers();
    h.Rerender(Some("b.png"), false, false);
    h.LayoutEffect(true, false, 0);
    var second := h.imageRef;
    h.AttachHandlers();
    assert first.hasOnLoad;
    h.FireLoad(first);
    assert !second.hasOnError;
    h.FireError(second);
    last := h.Result();
    reported := h.notified;
  }
}
