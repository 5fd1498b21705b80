/**
  The lightbox controller of gallery.js: the `gallery` object with its options,
  the reference to the opened thumbnail, and the overlay it adds to and removes
  from the page.

  The page is abstracted to what the controller reads and writes: the element
  children of the thumbnails' parent (`thumbs`), and the one overlay subtree,
  present or not.  Click handlers become methods.
 */
module Lightbox {
  import opened Wrappers
  import opened Settings
  import opened Navigation

  /** The five children of an overlay, by role. */
  datatype PartKind = BackControl | NextControl | Screen | CloseControl | Picture

  /** A child element of the overlay: its role, its CSS class and, for the
      three control icons, the path of the icon it shows. */
  datatype Part = Part(kind: PartKind, cls: string, icon: Option<string>)

  /** The overlay subtree: a distinct `id` per built instance, the wrapper's CSS
      class, its children in document order, and the `src` of its picture. */
  datatype Overlay = Overlay(id: nat, cls: string, children: seq<Part>, src: string)

  /** `o` is exactly what building an overlay with options `s` produces, with
      identity `id`: a wrapper holding the back control, the next control, the
      screen, the close control and the picture, in that order, each with the
      class and icon the options name. */
  ghost predicate Built(o: Overlay, s: map<string, string>, id: nat)
    requires Complete(s)
  {
    && o.id == id
    && o.cls == s[WrapperClass]
    && o.children == [
         Part(BackControl, s[BackImgClass], Some(s[BackImgSrc])),
         Part(NextControl, s[NextImgClass], Some(s[NextImgSrc])),
         Part(Screen, s[ScreenClass], None),
         Part(CloseControl, s[CloseBtnClass], Some(s[CloseBtnSrc])),
         Part(Picture, s[ImageClass], None)
       ]
  }

  /** Opening `src` took the page from overlay `before` (with `n` overlays built
      so far) to overlay `after` (with `n'` built): an overlay is shown with
      picture `src`; an existing one is reused, same identity and children; if
      there was none, exactly one new one was built, with the next identity. */
  ghost predicate OpenedWith(before: Option<Overlay>, n: nat, after: Option<Overlay>, n': nat,
                             s: map<string, string>, src: string)
    requires Complete(s)
  {
    && after.Some?
    && after.value.src == src
    && (before.Some? ==> after.value == before.value.(src := src) && n' == n)
    && (before.None? ==> Built(after.value, s, n) && n' == n + 1)
  }

  class Gallery {
    var settings: map<string, string>
    /** The element children of the thumbnails' parent, in document order.
        The gallery never changes them. */
    const thumbs: seq<Thumb>
    /** `openedImageEl`: the index of the thumbnail last opened. */
    var current: Option<nat>
    /** The overlay in the page, if any. */
    var overlay: Option<Overlay>
    /** The number of overlays built so far; the next one takes it as its id. */
    var created: nat

    ghost predicate Valid()
      reads this
    {
      && Complete(settings)
      && (current.Some? ==> current.value < |thumbs|)
      && (overlay.Some? ==> overlay.value.id < created)
    }

    /** The `gallery` object as the script defines it: default options,
        nothing opened, no overlay. */
    constructor (thumbs: seq<Thumb>)
      ensures Valid()
      ensures this.thumbs == thumbs
      ensures settings == Defaults() && current == None && overlay == None && created == 0
    {
      this.thumbs := thumbs;
      settings := Defaults();
      current := None;
      overlay := None;
      created := 0;
    }

    /** `init`: merges the caller's overrides into the current options.  The
        click listener it attaches is what makes `Click` reachable. */
    method Init(user: map<string, string>)
      requires Valid()
      modifies this`settings
      ensures Valid()
      ensures settings == Merge(old(settings), user)
    {
      settings := Merge(settings, user);
    }

    /** `containerClickHandler`: a click on a non-image element changes
        nothing; a click on an image makes it the opened one and shows its
        full-size picture. */
    method Click(i: nat)
      requires Valid() && i < |thumbs|
      modifies this`current, this`overlay, this`created
      ensures Valid()
      ensures thumbs[i].tag != "IMG" ==>
                current == old(current) && overlay == old(overlay) && created == old(created)
      ensures thumbs[i].tag == "IMG" ==>
                && current == Some(i)
                && OpenedWith(old(overlay), old(created), overlay, created, settings, thumbs[i].fullUrl)
    {
      if thumbs[i].tag != "IMG" {
        return;
      }
      current := Some(i);
      OpenImage(thumbs[i].fullUrl);
    }

    /** `openImage`: shows `src` in the overlay, building the overlay first if
        the page has none. */
    method OpenImage(src: string)
      requires Valid()
      modifies this`overlay, this`created
      ensures Valid()
      ensures OpenedWith(old(overlay), old(created), overlay, created, settings, src)
    {
      var o := GetScreenContainer();
      overlay := Some(o.(src := src));
    }

    /** `getScreenContainer`: the overlay already in the page, or a newly built
        one. */
    method GetScreenContainer() returns (o: Overlay)
      requires Valid()
      modifies this`overlay, this`created
      ensures Valid()
      ensures overlay == Some(o)
      ensures old(overlay).Some? ==> o == old(overlay).value && created == old(created)
      ensures old(overlay).None? ==> Built(o, settings, old(created)) && o.src == "" && created == old(created) + 1
    {
      if overlay.Some? {
        return overlay.value;
      }
      o := CreateScreenContainer();
    }

    /** `createScreenContainer`: builds a new overlay, child by child, with a
        picture that has no source yet, and adds it to the page. */
    method CreateScreenContainer() returns (o: Overlay)
      requires Valid() && overlay.None?
      modifies this`overlay, this`created
      ensures Valid()
      ensures Built(o, settings, old(created)) && o.src == ""
      ensures overlay == Some(o) && created == old(created) + 1
    {
      var children: seq<Part> := [];
      children := children + [Part(BackControl, settings[BackImgClass], Some(settings[BackImgSrc]))];
      children := children + [Part(NextControl, settings[NextImgClass], Some(settings[NextImgSrc]))];
      children := children + [Part(Screen, settings[ScreenClass], None)];
      children := children + [Part(CloseControl, settings[CloseBtnClass], Some(settings[CloseBtnSrc]))];
      children := children + [Part(Picture, settings[ImageClass], None)];
      o := Overlay(created, settings[WrapperClass], children, "");
      created := created + 1;
      overlay := Some(o);
    }

    /** The back control's click handler: `getPreviousImage` becomes the opened
        element, and its full-size picture is shown. */
    method Prev()
      requires Valid() && current.Some?
      modifies this`current, this`overlay, this`created
      ensures Valid()
      ensures current == Some(PreviousImage(thumbs, old(current).value))
      ensures OpenedWith(old(overlay), old(created), overlay, created, settings, thumbs[current.value].fullUrl)
    {
      var j := PreviousImage(thumbs, current.value);
      current := Some(j);
      OpenImage(thumbs[j].fullUrl);
    }

    /** The next control's click handler: `getNextImage` becomes the opened
        element, and its full-size picture is shown. */
    method Next()
      requires Valid() && current.Some?
      modifies this`current, this`overlay, this`created
      ensures Valid()
      ensures current == Some(NextImage(thumbs, old(current).value))
      ensures OpenedWith(old(overlay), old(created), overlay, created, settings, thumbs[current.value].fullUrl)
    {
      var j := NextImage(thumbs, current.value);
      current := Some(j);
      OpenImage(thumbs[j].fullUrl);
    }

    /** `close`: removes the overlay from the page.  There must be one: the
        script calls `remove` on the result of the lookup unchecked. */
    method Close()
      requires Valid() && overlay.Some?
      modifies this`overlay
      ensures Valid()
      ensures overlay == None
    {
      overlay := None;
    }

    /** The picture's `onerror` handler: the picture shows the fallback icon
        named by the current options.  With no overlay in the page the
        picture is detached and nothing visible changes. */
    method LoadError()
      requires Valid()
      modifies this`overlay
      ensures Valid()
      ensures old(overlay).Some? ==> overlay == Some(old(overlay).value.(src := settings[NotFoundSrc]))
      ensures old(overlay).None? ==> overlay == None
    {
      if overlay.Some? {
        overlay := Some(overlay.value.(src := settings[NotFoundSrc]));
      }
    }
  }

  /** Thumbnails A, B, C: clicking A shows
      A; "next" shows B, then C, then wraps to A; "previous" from A wraps to C. */
  method Walkthrough(a: string, b: string, c: string) returns (shown: seq<string>)
    ensures shown == [a, b, c, a, c]
  {
    var g := new Gallery([Thumb("IMG", a), Thumb("IMG", b), Thumb("IMG", c)]);
    g.Click(0);
    shown := [g.overlay.value.src];
    g.Next();
    assert g.current == Some(1);
    shown := shown + [g.overlay.value.src];
    g.Next();
    assert g.current == Some(2);
    shown := shown + [g.overlay.value.src];
    g.Next();
    assert g.current == Some(0);
    shown := shown + [g.overlay.value.src];
    g.Prev();
    assert g.current == Some(2);
    shown := shown + [g.overlay.value.src];
  }

  /** After "close", opening a thumbnail again builds a new overlay; a failed
      load then shows the fallback icon, and a second failure changes nothing
      more. */
  method Reopen(g: Gallery, i: nat) returns (firstId: nat, secondId: nat, once: Option<Overlay>)
    requires g.Valid() && g.overlay.Some? && i < |g.thumbs| && g.thumbs[i].tag == "IMG"
    modifies g
    ensures g.Valid()
    ensures firstId != secondId
    ensures once.Some? && once.value.id == secondId && once.value.src == g.settings[NotFoundSrc]
    ensures g.overlay == once
  {
    firstId := g.overlay.value.id;
    g.Close();
    g.Click(i);
    secondId := g.overlay.value.id;
    g.LoadError();
    once := g.overlay;
    g.LoadError();
  }

  /** A non-image element among the thumbnails: clicking it opens nothing, and
      "next" from the image before it still lands on it, since navigation
      ranges over every element sibling. */
  method CaptionSibling(a: string, caption: string)
    returns (anyOverlay: bool, landed: nat)
    ensures !anyOverlay
    ensures landed == 1
  {
    var g := new Gallery([Thumb("IMG", a), Thumb("P", caption)]);
    g.Click(1);
    anyOverlay := g.overlay.Some?;
    g.Click(0);
    g.Next();
    landed := g.current.value;
  }
}
