/**
 * The Image component's view state: which element renders, whether the
 * image counts as loaded or loading, whether the fallback image and the
 * skeleton show, and the width and height styles.
 */
module ImageView {
  import opened Wrappers
  import opened ImageLoader
  import opened Decimal

  /** A `width` or `height` prop: absent, a number, or a CSS string. */
  datatype Dimension = Unset | Number(n: int) | Text(s: string)

  /** JavaScript truthiness of a dimension prop. */
  predicate DimensionSet(d: Dimension)
  {
    (d.Number? && d.n != 0) || (d.Text? && d.s != "")
  }

  /** The props of the Image component that the view state depends on. */
  datatype ImageProps = ImageProps(
    asComponent: Option<string>,
    src: Option<string>,
    fallbackSrc: Option<string>,
    isLoading: Option<bool>,
    disableSkeleton: Option<bool>,
    disableAnimation: Option<bool>,
    width: Dimension,
    height: Dimension)

  /** The wrapper element's style. */
  datatype WrapperStyle = WrapperStyle(backgroundImage: Option<string>, maxWidth: string)

  /** Everything the component derives from its props and the load status. */
  datatype ViewState = ViewState(
    component: string,
    shouldBypassImageLoad: bool,
    disableSkeleton: bool,
    disableAnimation: bool,
    isImgLoaded: bool,
    isLoading: bool,
    showFallback: bool,
    showSkeleton: bool,
    wrapper: WrapperStyle,
    imgHeight: Option<string>)

  /** `disableSkeleton`, defaulting to whether a fallback image is given. */
  function DisableSkeleton(explicit: Option<bool>, fallbackSrc: Option<string>): (r: bool)
    ensures explicit.Some? ==> r == explicit.value
    ensures explicit.None? ==> (r <==> Truthy(fallbackSrc))
  {
    if explicit.Some? then explicit.value else Truthy(fallbackSrc)
  }

  /** The prop wins over the provider's setting, which wins over `false`. */
  function DisableAnimation(prop: Option<bool>, global: Option<bool>): (r: bool)
    ensures prop.Some? ==> r == prop.value
    ensures prop.None? && global.Some? ==> r == global.value
    ensures prop.None? && global.None? ==> !r
  {
    if prop.Some? then prop.value else if global.Some? then global.value else false
  }

  /** Loaded means the browser loaded it and the caller does not force a loading state. */
  function IsImgLoaded(status: ImgLoadingStatus, isLoadingProp: Option<bool>): (r: bool)
    ensures r ==> status == Loaded
    ensures IsTrue(isLoadingProp) ==> !r
    ensures status == Loaded && !IsTrue(isLoadingProp) ==> r
  {
    status == Loaded && !IsTrue(isLoadingProp)
  }

  /** Loading means the browser is loading it or the caller says so. */
  function IsLoading(status: ImgLoadingStatus, isLoadingProp: Option<bool>): (r: bool)
    ensures IsTrue(isLoadingProp) ==> r
    ensures !IsTrue(isLoadingProp) ==> (r <==> status == Loading)
  {
    status == Loading || IsTrue(isLoadingProp)
  }

  /** The fallback shows when one is given and there is no source or the image is not loaded. */
  function ShowFallback(src: Option<string>, fallbackSrc: Option<string>, isImgLoaded: bool): (r: bool)
    ensures r ==> Truthy(fallbackSrc)
    ensures Truthy(fallbackSrc) && !Truthy(src) ==> r
    ensures Truthy(src) ==> (r <==> Truthy(fallbackSrc) && !isImgLoaded)
  {
    (!Truthy(src) || !isImgLoaded) && Truthy(fallbackSrc)
  }

  /** The skeleton shows while loading unless it is disabled. */
  function ShowSkeleton(isLoading: bool, disableSkeleton: bool): (r: bool)
    ensures r ==> isLoading
    ensures disableSkeleton ==> !r
    ensures isLoading && !disableSkeleton ==> r
  {
    isLoading && !disableSkeleton
  }

  /** A dimension as CSS: a number in pixels, a non-empty string as given, otherwise the default. */
  function FormatDimension(d: Dimension, default: string): (r: string)
    ensures !DimensionSet(d) ==> r == default
    ensures d.Text? && d.s != "" ==> r == d.s
    ensures d.Number? && d.n != 0 ==> |r| >= 3 && r[|r| - 2..] == "px" && r[..|r| - 2] == IntToDecimal(d.n)
  {
    if !DimensionSet(d) then default
    else if d.Number? then IntToDecimal(d.n) + "px"
    else d.s
  }

  /** `w`, defaulting to `fit-content`. */
  function Width(d: Dimension): (r: string)
    ensures !DimensionSet(d) ==> r == "fit-content"
  {
    FormatDimension(d, "fit-content")
  }

  /** `h`, defaulting to `auto`. */
  function Height(d: Dimension): (r: string)
    ensures !DimensionSet(d) ==> r == "auto"
  {
    FormatDimension(d, "auto")
  }

  /** A numeric dimension's pixel text reads back as that number. */
  lemma PixelsRoundTrip(d: Dimension, default: string)
    requires d.Number? && d.n != 0
    ensures var r := FormatDimension(d, default);
      |r| >= 3 && r[|r| - 2..] == "px" && ParseDecimal(r[..|r| - 2]) == d.n
  {
    IntRoundTrip(d.n);
  }

  /** Different non-zero numbers give different widths. */
  lemma NumberWidthsDistinct(m: int, n: int)
    requires m != 0 && n != 0 && m != n
    ensures Width(Number(m)) != Width(Number(n))
  {
    if Width(Number(m)) == Width(Number(n)) {
      var a := Width(Number(m));
      assert a[..|a| - 2] == IntToDecimal(m) && a[..|a| - 2] == IntToDecimal(n);
      Injective(m, n);
    }
  }

  /** The element that renders: the `as` prop when it is truthy, else `img`. */
  function Component(asComponent: Option<string>): (r: string)
    ensures Truthy(asComponent) ==> r == asComponent.value
    ensures !Truthy(asComponent) ==> r == "img"
  {
    if Truthy(asComponent) then asComponent.value else "img"
  }

  /** The image load is left to the `as` component whenever one is passed at all. */
  function ShouldBypassImageLoad(asComponent: Option<string>): (r: bool)
    ensures r <==> asComponent != None
  {
    asComponent.Some?
  }

  /** The wrapper's style: the fallback as a background image while it shows, and the width as maximum. */
  function Wrapper(showFallback: bool, fallbackSrc: Option<string>, w: string): (r: WrapperStyle)
    requires showFallback ==> fallbackSrc.Some?
    ensures r.backgroundImage.Some? <==> showFallback
    ensures showFallback ==> r.backgroundImage.value == "url(" + fallbackSrc.value + ")"
    ensures r.maxWidth == w
  {
    WrapperStyle(if showFallback then Some("url(" + fallbackSrc.value + ")") else None, w)
  }

  /** The `img` element's height style: the formatted height, only when a height prop is set. */
  function ImgHeight(height: Dimension): (r: Option<string>)
    ensures r.Some? <==> DimensionSet(height)
    ensures r.Some? ==> r.value == Height(height)
  {
    if DimensionSet(height) then Some(Height(height)) else None
  }

  /** All derivations together, for a load status and the provider's `disableAnimation`. */
  function View(p: ImageProps, status: ImgLoadingStatus, globalDisableAnimation: Option<bool>): (v: ViewState)
    ensures v.isImgLoaded ==> !v.isLoading
    ensures v.showFallback <==> Truthy(p.fallbackSrc) && (!v.isImgLoaded || !Truthy(p.src))
    ensures v.showSkeleton ==> v.isLoading
    ensures v.wrapper.backgroundImage.Some? <==> v.showFallback
    ensures v.wrapper.maxWidth == Width(p.width)
  {
    var disableSkeleton := DisableSkeleton(p.disableSkeleton, p.fallbackSrc);
    var isImgLoaded := IsImgLoaded(status, p.isLoading);
    var isLoading := IsLoading(status, p.isLoading);
    var showFallback := ShowFallback(p.src, p.fallbackSrc, isImgLoaded);
    var w := Width(p.width);
    ViewState(
      Component(p.asComponent),
      ShouldBypassImageLoad(p.asComponent),
      disableSkeleton,
      DisableAnimation(p.disableAnimation, globalDisableAnimation),
      isImgLoaded,
      isLoading,
      showFallback,
      ShowSkeleton(isLoading, disableSkeleton),
      Wrapper(showFallback, p.fallbackSrc, w),
      ImgHeight(p.height))
  }

  /** The image is never both loaded and loading. */
  lemma LoadedExcludesLoading(status: ImgLoadingStatus, isLoadingProp: Option<bool>)
    ensures !(IsImgLoaded(status, isLoadingProp) && IsLoading(status, isLoadingProp))
  {
  }

  /** With a fallback image and no explicit `disableSkeleton`, the skeleton never shows. */
  lemma FallbackSuppressesSkeleton(p: ImageProps, status: ImgLoadingStatus, global: Option<bool>)
    requires Truthy(p.fallbackSrc) && p.disableSkeleton.None?
    ensures !View(p, status, global).showSkeleton
  {
  }

  /** Without a fallback image the wrapper never gets a background image. */
  lemma NoFallbackNoBackground(p: ImageProps, status: ImgLoadingStatus, global: Option<bool>)
    requires !Truthy(p.fallbackSrc)
    ensures View(p, status, global).wrapper.backgroundImage.None?
  {
  }

  /**
   * The status the component sees once the loader's layout effect ran: the
   * component never opts out of the fallback logic, and bypasses the load
   * when `as` is passed.
   */
  function SettledStatus(p: ImageProps, complete: bool, naturalWidth: nat): (r: ImgLoadingStatus)
    ensures Truthy(p.src) && p.asComponent.Some? ==> r == Loaded
    ensures !Truthy(p.src) ==> r == Pending
  {
    LoadStatus(p.src, false, ShouldBypassImageLoad(p.asComponent), complete, naturalWidth)
  }

  /**
   * A custom `as` component with a source: after the load decision the image
   * counts as loaded, so neither the fallback nor the skeleton shows, unless
   * the caller forces the loading state.
   */
  lemma CustomComponentShowsImage(p: ImageProps, complete: bool, naturalWidth: nat, global: Option<bool>)
    requires Truthy(p.src) && p.asComponent.Some? && !IsTrue(p.isLoading)
    ensures var v := View(p, SettledStatus(p, complete, naturalWidth), global);
      v.isImgLoaded && !v.isLoading && !v.showFallback && !v.showSkeleton && v.shouldBypassImageLoad
  {
  }

  /**
   * Without a source the loader stays pending: the fallback shows when one
   * is given, and no skeleton shows unless the caller forces loading.
   */
  lemma NoSourceShowsFallback(p: ImageProps, complete: bool, naturalWidth: nat, global: Option<bool>)
    requires !Truthy(p.src)
    ensures var v := View(p, SettledStatus(p, complete, naturalWidth), global);
      (v.showFallback <==> Truthy(p.fallbackSrc)) && (v.showSkeleton ==> IsTrue(p.isLoading))
  {
  }
}
