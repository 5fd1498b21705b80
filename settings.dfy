/**
  The gallery's options: CSS class names, icon paths and the selector of the
  thumbnail container, with their defaults and the shallow merge `init` applies.
  Options are string-keyed, string-valued, as in the `settings` object literal.
 */
module Settings {

  const PreviewSelector := "previewSelector"
  const WrapperClass := "openedImageWrapperClass"
  const ImageClass := "openedImageClass"
  const ScreenClass := "openedImageScreenClass"
  const CloseBtnClass := "openedImageCloseBtnClass"
  const CloseBtnSrc := "openedImageCloseBtnSrc"
  const NotFoundSrc := "openedImageNotFoundSrc"
  const NextImgSrc := "openedImageNextImgSrc"
  const NextImgClass := "openedImageNextImgClass"
  const BackImgSrc := "openedImageBackImgSrc"
  const BackImgClass := "openedImageBackImgClass"

  /** The option values the gallery starts with: one for each of the eleven
      options, and for nothing else. */
  function Defaults(): (r: map<string, string>)
    ensures r.Keys == {PreviewSelector, WrapperClass, ImageClass, ScreenClass, CloseBtnClass,
                       CloseBtnSrc, NotFoundSrc, NextImgSrc, NextImgClass, BackImgSrc, BackImgClass}
  {
    map[
      PreviewSelector := ".mySuperGallery",
      WrapperClass := "galleryWrapper",
      ImageClass := "galleryWrapper__image",
      ScreenClass := "galleryWrapper__screen",
      CloseBtnClass := "galleryWrapper__close",
      CloseBtnSrc := "img/settingsImg/close.png",
      NotFoundSrc := "img/settingsImg/404.png",
      NextImgSrc := "img/settingsImg/next.png",
      NextImgClass := "galleryWrapper__next",
      BackImgSrc := "img/settingsImg/back.png",
      BackImgClass := "galleryWrapper__back"
    ]
  }

  /** Every option the gallery reads has a value. */
  predicate Complete(s: map<string, string>)
  {
    Defaults().Keys <= s.Keys
  }

  /** `Object.assign(base, user)`: every key of `user` takes its value from
      `user`, every other key of `base` keeps its value, and no other key
      appears. */
  function Merge(base: map<string, string>, user: map<string, string>): (r: map<string, string>)
    ensures r.Keys == base.Keys + user.Keys
    ensures forall k :: k in user ==> r[k] == user[k]
    ensures forall k :: k in base && k !in user ==> r[k] == base[k]
    ensures Complete(base) ==> Complete(r)
  {
    base + user
  }

  /** Initialising from the defaults: an option the caller passes takes the
      caller's value, every other option keeps its default. */
  lemma InitFromDefaults(user: map<string, string>, k: string)
    requires k in Defaults() || k in user
    ensures k in Merge(Defaults(), user)
    ensures Merge(Defaults(), user)[k] == if k in user then user[k] else Defaults()[k]
  {
  }

  /** Two merges in a row are one merge of the second overrides on top of the
      first: a second initialisation keeps the first one's overrides for every
      option it does not mention. */
  lemma MergeTwice(base: map<string, string>, u1: map<string, string>, u2: map<string, string>)
    ensures Merge(Merge(base, u1), u2) == Merge(base, Merge(u1, u2))
  {
  }

  /** The page's own start-up call, which overrides only the container
      selector: the result is the defaults with that one option replaced. */
  lemma PageStartup()
    ensures Merge(Defaults(), map[PreviewSelector := ".pictureContainer"])
         == Defaults()[PreviewSelector := ".pictureContainer"]
  {
  }
}
