# HeroUI image loading and fully-controlled autocomplete, in Dafny

This project models three pieces of decision logic from the HeroUI component library.

- **The fully-controlled Autocomplete demo** (module `FullyControlled`). The application keeps a
  `FieldState` (`selectedKey`, `inputValue`, `items`) and recomputes it in three updaters.
  - `onSelectionChange` looks the key up in the current items. It takes that item's label as the
    text and filters the registry by the label.
  - `onInputChange` takes the text, clears the key only when the text becomes empty, and filters by
    the text.
  - `onOpenChange` shows the whole registry when the menu is opened by hand.

  The registry is the demo's thirteen animals. The filter's `startsWith` (module `PrefixFilter`) is
  a case-insensitive prefix test.
- **The image-loading hook** (module `ImageLoader`, from `packages/react`). It has two parts.
  - Pure decisions: whether a fallback shows for a status and a strategy, and the status `load()`
    returns.
  - The hook as a class `ImageHook`. It holds the status and the reference to the browser image
    (`HtmlImage`, an object with `complete`, `naturalWidth` and handler-attached flags).
    - Its methods are the layout effect, `load()`, attaching handlers, `flush()`, and the browser's
      `load`/`error` events.
    - `notified` records every status passed to `onLoadingStatusChange`.
- **The Image component's view state** (module `ImageView`). This covers the loaded/loading flags,
  fallback and skeleton visibility, the `disableSkeleton` default, the `disableAnimation`
  precedence, the rendered element, the width/height CSS text and the wrapper style. Numeric
  dimensions are printed by module `Decimal`, which is proved to round-trip.

Three consequences of the handlers' code:
- `onSelectionChange` filters the registry by the selected label, so selecting "Dog" leaves only
  Dog in the list (`ScenarioTypeThenSelect`).
- `onInputChange` clears the selection only when the text becomes empty; any other text keeps the
  selected key.
- Selecting twice with the same key is idempotent exactly when the key was found in the current
  items or names no animal. A key hidden by the current filter is not found the first time, but
  it is found in the full list that the first call restores, so the second call always differs
  (`SelectionNotIdempotentForHiddenKey`).
  The widget only offers visible items, so this is a limit of the handler, not a defect.

The hook model exhibits one behaviour of the code as written (`ImageLoader.ScenarioStaleImage`).
- When the source changes while an image is still loading, the first image keeps its handlers.
- Its late `load` event then flushes the current reference and reports `loaded`. That detaches the
  new image's handlers, if they were attached. The second `load()` returns the same `loading`
  status, so a re-render that would attach them is not guaranteed. Either way the new image's
  outcome goes unreported.

## Model

| member | source | states |
|---|---|---|
| `FullyControlled.Initial` | apps/docs/content/components/autocomplete/fully-controlled.raw.tsx:44-48 | the initial key is `""`, the text is empty and the items are the whole registry |
| `FullyControlled.FindByKey` | apps/docs/content/components/autocomplete/fully-controlled.raw.tsx:58 | a found item is the first item in the list that carries the key; not found means no item has that key; `null` never matches |
| `FullyControlled.FilterByPrefix` | apps/docs/content/components/autocomplete/fully-controlled.raw.tsx:63 | every kept entry comes from the list and starts with the query; the result is no longer than the list |
| `FullyControlled.FilterIsExact` | apps/docs/content/components/autocomplete/fully-controlled.raw.tsx:74 | the filter is an order-preserving subsequence that keeps every occurrence of each matching entry |
| `FullyControlled.FilterByEmptyIsIdentity` | apps/docs/content/components/autocomplete/fully-controlled.raw.tsx:63 | filtering by the empty text returns the list unchanged |
| `FullyControlled.OnSelectionChange` | apps/docs/content/components/autocomplete/fully-controlled.raw.tsx:56-66 | the key is always taken; the text is the found item's label or `""`; every item is a registry entry starting with the new text |
| `FullyControlled.SelectionFound` | apps/docs/content/components/autocomplete/fully-controlled.raw.tsx:58-63 | for a key found in the current items: key and label are taken, the items are exactly the animals starting with that label, in registry order, and the selected animal is among them |
| `FullyControlled.SelectionNotFound` | apps/docs/content/components/autocomplete/fully-controlled.raw.tsx:58-63 | for a key not in the current items (such as `null`): the key is taken, the text is empty and the items are the whole registry |
| `FullyControlled.SelectionFoundIdempotent` | apps/docs/content/components/autocomplete/fully-controlled.raw.tsx:58-63 | selecting a found key a second time leaves the state unchanged; uses that the selected animal matches its own label and that keys are unique |
| `FullyControlled.SelectionUnknownIdempotent` | apps/docs/content/components/autocomplete/fully-controlled.raw.tsx:58-63 | selecting a key of no animal a second time leaves the state unchanged |
| `FullyControlled.SelectionNotIdempotentForHiddenKey` | apps/docs/content/components/autocomplete/fully-controlled.raw.tsx:58-63 | for every state and every animal's key that the current items do not contain, selecting it twice differs from selecting it once |
| `FullyControlled.OnInputChange` | apps/docs/content/components/autocomplete/fully-controlled.raw.tsx:70-76 | the text is taken; the key becomes `null` iff the text is empty and is kept otherwise; every item starts with the text |
| `FullyControlled.InputChangeFiltersExactly` | apps/docs/content/components/autocomplete/fully-controlled.raw.tsx:74 | after a text edit an animal is listed iff its label starts with the text, in registry order |
| `FullyControlled.InputClearedRestoresAll` | apps/docs/content/components/autocomplete/fully-controlled.raw.tsx:73-74 | clearing the text gives key `null`, empty text and the whole registry |
| `FullyControlled.OnOpenChange` | apps/docs/content/components/autocomplete/fully-controlled.raw.tsx:79-87 | opening manually shows the whole registry; text and key never change; every other combination changes nothing |
| `FullyControlled.LabelsNonEmpty` | apps/docs/content/components/autocomplete/fully-controlled.raw.tsx:13-39 | every registry entry (the constant `Animals`) has a non-empty label |
| `FullyControlled.AnimalsHaveUniqueKeys` | apps/docs/content/components/autocomplete/fully-controlled.raw.tsx:13-39 | no two registry entries share a key |
| `FullyControlled.StepKeepsConsistent` | apps/docs/content/components/autocomplete/fully-controlled.raw.tsx:56-87 | every updater keeps the items equal to the filter of the text or to the whole registry |
| `FullyControlled.RunKeepsItemsInRegistry` | apps/docs/content/components/autocomplete/fully-controlled.raw.tsx:63-84 | after any sequence of events that invariant still holds and the items are a subsequence of the registry |
| `FullyControlled.ReachableItemsInRegistry` | apps/docs/content/components/autocomplete/fully-controlled.raw.tsx:44-87 | from the initial state, after any sequence of events, the items are a subsequence of the registry |
| `FullyControlled.ReachableMeetsSelectionRequires` | apps/docs/content/components/autocomplete/fully-controlled.raw.tsx:44-87 | every item of a state reachable from the initial one is a registry entry, which is what the selection lemmas require |
| `FullyControlled.ScenarioTypeThenSelect` | apps/docs/content/components/autocomplete/fully-controlled.raw.tsx:56-76 | typing "d" lists Dog and Dolphin; selecting "dog" then gives text "Dog" and lists only Dog |
| `PrefixFilter.StartsWith` | apps/docs/content/components/autocomplete/fully-controlled.raw.tsx:52 | a match needs the query to be no longer than the label, and the empty query always matches; the case-insensitive prefix behaviour is in its partner lemmas below |
| `PrefixFilter.EmptyQueryMatchesAll` | apps/docs/content/components/autocomplete/fully-controlled.raw.tsx:52 | the empty query matches every label |
| `PrefixFilter.LabelMatchesItself` | apps/docs/content/components/autocomplete/fully-controlled.raw.tsx:52 | every label matches itself |
| `PrefixFilter.CaseInsensitive` | apps/docs/content/components/autocomplete/fully-controlled.raw.tsx:52 | a query matches iff its case-folded form matches |
| `PrefixFilter.MatchShorterQuery` | apps/docs/content/components/autocomplete/fully-controlled.raw.tsx:52 | a label matching a query matches every prefix of the query |
| `ImageLoader.ShouldShowFallbackImage` | packages/react/src/hooks/use-image.ts:158-163 | with `beforeLoadOrError` the fallback shows iff the status is not loaded; with `onError` iff it failed |
| `ImageLoader.LoadedHidesFallback` | packages/react/src/hooks/use-image.ts:161-163 | a loaded image shows no fallback under either strategy |
| `ImageLoader.BeforeLoadOrErrorCoversOnError` | packages/react/src/hooks/use-image.ts:158-163 | `beforeLoadOrError` shows the fallback whenever `onError` does; they differ exactly while pending or loading |
| `ImageLoader.LoadStatus` | packages/react/src/hooks/use-image.ts:122-140 | pending without a source; loaded when the fallback logic or the load is bypassed; otherwise loaded iff the image is complete with a non-zero width, else loading; never failed |
| `ImageLoader.HtmlImage.constructor` | packages/react/src/hooks/use-image.ts:126-128 | a new image has its source and browser flags and no handlers |
| `ImageLoader.ImageHook.constructor` | packages/react/src/hooks/use-image.ts:94-96 | the status starts pending, nothing has been reported, and an image exists iff the page is hydrated; that image is blank (empty source, complete, zero width) and has no handlers |
| `ImageLoader.ImageHook.AttachHandlers` | packages/react/src/hooks/use-image.ts:98-112 | a current image gets both handlers; nothing else changes |
| `ImageLoader.ImageHook.Flush` | packages/react/src/hooks/use-image.ts:114-120 | the reference ends null and the image it held loses both handlers; with no reference nothing changes |
| `ImageLoader.FlushTwice` | packages/react/src/hooks/use-image.ts:114-120 | a second flush changes nothing |
| `ImageLoader.ImageHook.Load` | packages/react/src/hooks/use-image.ts:122-140 | returns `LoadStatus`; a new image without handlers becomes the current reference exactly when one is needed, otherwise the reference is kept |
| `ImageLoader.ImageHook.LayoutEffect` | packages/react/src/hooks/use-image.ts:142-149 | once hydrated, the status becomes the load status and is reported, and a created image is fresh, handler-less and holds the source and browser flags; before hydration nothing changes |
| `ImageLoader.ImageHook.FireLoad` | packages/react/src/hooks/use-image.ts:100-105 | with the handler attached the hook flushes, the status becomes loaded and it is reported; without it nothing changes; in both cases the image that was current keeps its source and browser flags |
| `ImageLoader.ImageHook.FireError` | packages/react/src/hooks/use-image.ts:106-111 | with the handler attached the hook flushes, the status becomes failed and it is reported; without it nothing changes; in both cases the image that was current keeps its source and browser flags |
| `ImageLoader.ImageHook.Result` | packages/react/src/hooks/use-image.ts:155 | the result is loaded when the fallback logic is ignored, otherwise the status |
| `ImageLoader.ImageHook.Rerender` | packages/react/src/hooks/use-image.ts:79-90 | a new render replaces the props and keeps the status and the image |
| `ImageLoader.ScenarioSlowLoad` | packages/react/src/hooks/use-image.ts:96-149 | a slow load reports loading, then loaded |
| `ImageLoader.ScenarioStaleImage` | packages/react/src/hooks/use-image.ts:98-140 | after a source change, the earlier image's load event reports loaded, and the new image's error is then ignored |
| `ImageView.DisableSkeleton` | packages/components/image/src/use-image.ts:89 | an explicit value wins; by default the skeleton is disabled iff a fallback image is given |
| `ImageView.DisableAnimation` | packages/components/image/src/use-image.ts:111-112 | the prop wins, then the provider's value, then false |
| `ImageView.IsImgLoaded` | packages/components/image/src/use-image.ts:114 | loaded iff the status is loaded and the caller does not force loading |
| `ImageView.IsLoading` | packages/components/image/src/use-image.ts:115 | loading iff the status is loading or the caller forces loading |
| `ImageView.LoadedExcludesLoading` | packages/components/image/src/use-image.ts:114-115 | the image is never both loaded and loading |
| `ImageView.ShowFallback` | packages/components/image/src/use-image.ts:137 | the fallback shows iff one is given and there is no source or the image is not loaded |
| `ImageView.ShowSkeleton` | packages/components/image/src/use-image.ts:138 | the skeleton shows iff loading and not disabled |
| `ImageView.FallbackSuppressesSkeleton` | packages/components/image/src/use-image.ts:89-138 | with a fallback image and the default `disableSkeleton`, the skeleton never shows |
| `ImageView.FormatDimension` | packages/components/image/src/use-image.ts:122-135 | a non-zero number becomes its decimal text plus `px`; a non-empty string is kept; anything falsy gives the default |
| `ImageView.Width` | packages/components/image/src/use-image.ts:124-128 | a falsy width becomes `fit-content` |
| `ImageView.Height` | packages/components/image/src/use-image.ts:129-133 | a falsy height becomes `auto` |
| `ImageView.PixelsRoundTrip` | packages/components/image/src/use-image.ts:122-135 | the pixel text of a number ends in `px` and reads back as that number |
| `ImageView.NumberWidthsDistinct` | packages/components/image/src/use-image.ts:124-128 | different non-zero numbers give different widths |
| `ImageView.Component` | packages/components/image/src/use-image.ts:118 | a truthy `as` prop is rendered, otherwise `img` |
| `ImageView.ShouldBypassImageLoad` | packages/components/image/src/use-image.ts:108 | the load is bypassed iff `as` is passed at all |
| `ImageView.Wrapper` | packages/components/image/src/use-image.ts:175-189 | a background image `url(...)` of the fallback iff the fallback shows; the maximum width is always `w` |
| `ImageView.ImgHeight` | packages/components/image/src/use-image.ts:168 | the image gets a height style iff a height prop is set, and then it is `h` |
| `ImageView.View` | packages/components/image/src/use-image.ts:89-189 | in the combined view: never loaded and loading at once; the fallback shows iff one is given and the image is not loaded or has no source; a skeleton only while loading; a wrapper background iff the fallback shows; the wrapper's maximum width is `w` |
| `ImageView.NoFallbackNoBackground` | packages/components/image/src/use-image.ts:176-180 | without a fallback image the wrapper has no background image |
| `ImageView.SettledStatus` | packages/components/image/src/use-image.ts:99-109 | the status the component gets from the loader: once hydrated and the layout effect has run, loaded for a source with a custom `as`; pending without a source; before hydration (and on the server) pending |
| `ImageView.CustomComponentShowsImage` | packages/components/image/src/use-image.ts:99-138 | with a source and a custom `as`, once hydrated and the layout effect has run, the image is loaded: no fallback, no skeleton, unless loading is forced |
| `ImageView.NoSourceShowsFallback` | packages/components/image/src/use-image.ts:99-138 | without a source the fallback shows iff one is given, and a skeleton only when loading is forced |
| `Decimal.NatToDecimal` | packages/components/image/src/use-image.ts:126 | digits only, at least one, no leading zero |
| `Decimal.IntToDecimal` | packages/components/image/src/use-image.ts:126 | a non-empty text that starts with `-` exactly for a negative number; its partner `IntRoundTrip` parses it back |
| `Decimal.IntRoundTrip` | packages/components/image/src/use-image.ts:126 | parsing the printed integer gives it back |
| `Decimal.Injective` | packages/components/image/src/use-image.ts:126 | different integers print differently |

## Left out

- Locale collation: `startsWith` comes from `Intl.Collator` with base sensitivity, which also ignores
  accents and applies Unicode normalisation. The model folds ASCII letter case only.
- Numeric React keys: `React.Key` may be a number. The model uses strings and `null`, since every
  registry key is a string.
- The `Autocomplete` widget's own behaviour: focus, keyboard navigation, open state, clearing and
  validation. None of it is visible in the modelled code.
- The rendered JSX, the `description` field's display, and all styling slots and class names
  (`slots.img`, `slots.wrapper`, `clsx`).
- The image hook's `srcSet`, `sizes`, `crossOrigin` and `loading` attributes. They are copied onto
  the image and decide nothing.
- The hook's `onLoad`/`onError` user callbacks (only `onLoadingStatusChange` is recorded), and the
  browser's own loading. The browser's `complete` and `naturalWidth` are parameters.
- React scheduling and dependency arrays: the model's host calls `LayoutEffect`, `AttachHandlers`
  and the events in the order a render would. The model does not decide when an effect re-runs.
  For example, `ignoreFallback` is missing from `load`'s dependencies
  (packages/react/src/hooks/use-image.ts:140), so changing it alone does not re-run the load.
- `useIsHydrated` is a parameter. `useDOMRef`, `mapPropsVariants` and the provider context are left
  out; only the context's `disableAnimation` value enters, as a parameter.
- `FormatDimension`: numbers are integers. Fractional and `NaN` widths, and JavaScript's exponent
  notation for very large numbers, are not modelled.
- `fallbackSrc` and `as` are modelled as strings. A React node or a component function given there
  is reduced to its truthiness and its text.
- The image element's `data-loaded` attribute, the blurred-image props, and the user `style`
  objects that are spread over the computed height.
