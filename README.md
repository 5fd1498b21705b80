# Gallery lightbox, modelled in Dafny

`gallery.js` is a lightbox for a web page. Clicking a thumbnail opens its
full-size picture in an overlay. The overlay has "previous" and "next"
controls that move circularly through the thumbnail's siblings, a "close"
control, and a fallback icon that replaces a picture that fails to load. The
options (CSS class names, icon paths, the selector of the thumbnail container)
have defaults, and `init` merges the page's overrides into them.

This project models the controller that sits under the DOM calls. It is a
state machine over four things:

- the options, a `map<string, string>`;
- the element children of the thumbnails' parent (`thumbs`), each with a tag
  and a full-size URL;
- the opened thumbnail (`openedImageEl`), an optional index into `thumbs`;
- the overlay, if one is in the page. It records its own identity, the
  wrapper's class, its five children in order, and the `src` of its picture.

Files:

- `wrappers.dfy`: `Option`.
- `settings.dfy` (module `Settings`): the default options, the shallow merge
  `Object.assign` performs, and lemmas about merging.
- `navigation.dfy` (module `Navigation`): the DOM sibling lookups,
  `getPreviousImage` and `getNextImage` as index functions, and lemmas about
  repeated navigation (rotation modulo the number of siblings, full circle, back
  undoes forward).
- `lightbox.dfy` (module `Lightbox`): the class `Gallery`, with one method per
  handler of the `gallery` object, and three client methods. The client
  methods replay typical sequences of events using only the methods' contracts.

`Gallery` keeps its invariant in `Valid()`:

- every option the controller reads has a value;
- the opened index is inside `thumbs`;
- the overlay's identity is below the count of overlays built so far.

The last point is what makes a rebuilt overlay provably a new instance. Each
method's `modifies` clause names only the fields the handler writes, so
everything else is unchanged by frame. `thumbs` is a constant because the
controller never edits the page's thumbnails.

Two consequences of the code are worth stating. A second `init` merges into
the options the first one already changed (gallery.js:38), so it keeps the
first one's overrides for every option it does not mention
(`Settings.MergeTwice`). The `onerror` handler stays attached to the picture
(gallery.js:113) and sets the same fallback on every failure, so a repeated
failure changes nothing (`Lightbox.Reopen`).

## Model

| member | source | states |
|---|---|---|
| Settings.Defaults | gallery.js:19-31 | the settings literal gives a value to exactly the eleven options, and to nothing else |
| Settings.Merge | gallery.js:38 | `Object.assign`: keys are the union; a key the caller gives takes the caller's value; every other key keeps its old value; a complete option set stays complete |
| Settings.InitFromDefaults | gallery.js:19-38 | initialising from the defaults gives each option the caller's value if given, else its default |
| Settings.MergeTwice | gallery.js:37-38 | two successive inits equal one init with the second overrides laid over the first, so a second init keeps the first one's overrides |
| Settings.PageStartup | gallery.js:146 | the page's start-up call yields the defaults with only the container selector replaced by `.pictureContainer` |
| Navigation.PreviousElementSibling | gallery.js:125 | there is a previous element exactly when the index is not the first, and it is the one just before |
| Navigation.NextElementSibling | gallery.js:134 | there is a next element exactly when the index is not the last, and it is the one just after |
| Navigation.FirstElementChild | gallery.js:135 | the parent has a first child exactly when it has children, and it is index 0 |
| Navigation.LastElementChild | gallery.js:126 | the parent has a last child exactly when it has children, and it is the last index |
| Navigation.PreviousImage | gallery.js:124-127 | the result stays inside the siblings and equals minus one modulo their number (`i - 1`, or the last when `i` is first) |
| Navigation.NextImage | gallery.js:133-136 | the result stays inside the siblings and equals plus one modulo their number (`i + 1`, or the first when `i` is last) |
| Navigation.NextThenPrevious | gallery.js:124-136 | previous undoes next, and next undoes previous |
| Navigation.Forward | gallery.js:97-100 | any number of clicks on "next" stays inside the siblings |
| Navigation.Backward | gallery.js:88-91 | any number of clicks on "previous" stays inside the siblings |
| Navigation.ForwardIsRotation | gallery.js:133-136 | `k` clicks on "next" from `i` reach `(i + k) mod n` |
| Navigation.BackwardIsRotation | gallery.js:124-127 | `k` clicks on "previous" from `i` reach `(i - k) mod n` |
| Navigation.FullCircle | gallery.js:124-136 | `n` clicks on "next", or `n` on "previous", come back to the start |
| Navigation.ForwardThenBackward | gallery.js:88-100 | `k` clicks on "previous" undo `k` clicks on "next" |
| Navigation.BackwardThenForward | gallery.js:88-100 | `k` clicks on "next" undo `k` clicks on "previous" |
| Lightbox.Gallery.constructor | gallery.js:17-31 | the controller starts with the default options, nothing opened and no overlay |
| Lightbox.Gallery.Init | gallery.js:37-41 | the new options are the old ones merged with the caller's; the opened element and the overlay are unchanged |
| Lightbox.Gallery.Click | gallery.js:48-54 | a non-`IMG` target changes nothing; an `IMG` at `i` becomes the opened element and its full-size URL is shown, in the existing overlay if there is one, else in one newly built |
| Lightbox.Gallery.OpenImage | gallery.js:60-62 | afterwards an overlay shows `src`; an existing overlay keeps its identity and children; with none, exactly one is built with the next identity |
| Lightbox.Gallery.GetScreenContainer | gallery.js:68-74 | returns the overlay in the page unchanged if there is one, otherwise a newly built one with an empty picture |
| Lightbox.Gallery.CreateScreenContainer | gallery.js:80-118 | the new overlay takes the next identity and the wrapper class, and its children are back, next, screen, close and picture, in that order, each with the class and icon the options name |
| Lightbox.Gallery.Prev | gallery.js:88-91 | the opened element becomes `getPreviousImage` of the old one and its full-size URL is shown, reusing the overlay if there is one |
| Lightbox.Gallery.Next | gallery.js:97-100 | the opened element becomes `getNextImage` of the old one and its full-size URL is shown, reusing the overlay if there is one |
| Lightbox.Gallery.Close | gallery.js:141-143 | with an overlay in the page, removes it; options, thumbnails and the opened element are unchanged |
| Lightbox.Gallery.LoadError | gallery.js:113 | the overlay's picture shows the fallback icon named by the current options; identity and children are unchanged |
| Lightbox.Walkthrough | gallery.js:88-136 | with thumbnails A, B, C: opening A, then next three times, then previous, shows A, B, C, A, C |
| Lightbox.Reopen | gallery.js:141-143 | after close, opening an image builds an overlay with a different identity; a load error shows the fallback named by the options; a second error leaves the overlay exactly as the first left it |
| Lightbox.CaptionSibling | gallery.js:48-54 | a click on a non-image sibling opens nothing, and "next" from the image before it lands on it |

## Left out

- The DOM calls (`querySelector`, `createElement`, `classList.add`, `appendChild`, `addEventListener`, `remove`, `window.onload`) are browser APIs. They appear only as the abstract `thumbs` and overlay state. The event handlers on the controls are represented by the part kinds and by the `Prev`, `Next` and `Close` methods.
- `init`'s lookup of the thumbnail container and the listener it attaches (gallery.js:39-40) are not modelled. A missing container throws in the page. A second `init` attaches a second listener; the model does not capture this.
- Asynchronous image loading and decoding are left out. A failed load is modelled only as the explicit `LoadError` event.
- The document-wide lookups by class in `getScreenContainer` and `close` (gallery.js:69, 142) are assumed to find the gallery's own overlay and nothing else. The same goes for the lookup of the picture inside it in `openImage` (gallery.js:61). Consequence: if a later `init` renamed the wrapper or picture class while an overlay is open, the page would build a second overlay or throw. The model does not capture that.
- Click targets that are not among the parent's element children are not modelled, and neither are missing `data-full_image_url` attributes. `Click` requires an index into `thumbs`. `fullUrl` is whatever string the attribute yields.
- CSS, rendering and the contents of the icons are left out. Class names and paths are opaque strings.
- Lightbox.Gallery.CreateScreenContainer: requires that no overlay exists. Its only caller, `getScreenContainer`, calls it only in that case, and the model has no way to represent two overlays.
- Lightbox.Gallery.Close: requires an overlay rather than modelling the `TypeError` the page raises when there is none.
- Lightbox.Gallery.Next: requires an opened element, because the page would dereference `null` otherwise. In the page it is reachable only from the overlay's "next" control, but the model does not require an overlay and builds one if none exists, as `openImage` would.
- Lightbox.Gallery.Prev: requires an opened element, for the same reason; the same remark about the overlay applies to the "previous" control.
