/** The avatar with its image fallback chain (src/app/ui/avatar/avatar.tsx). */
module Avatar {
  import opened Wrappers

  /** `fallbackSrc`: the image tried once the avatar's own image fails. */
  const Fallback := "/fallback-avatar.png"

  /** What `ImageBase` renders. */
  datatype View =
    | Picture(src: string, alt: string, reportsErrors: bool) // an image; `reportsErrors` when it carries `onError`
    | InitialsText(text: string)
    | Nothing

  /** A JavaScript-truthy optional string: present and not empty. */
  predicate Truthy(s: Option<string>)
  {
    s.Some? && s.value != ""
  }

  /**
   * `ImageBase`: the current image when there is one; otherwise the initials when there are some;
   * otherwise the default picture, which has no error handler.
   */
  function Render(imgSrc: Option<string>, alt: string, initials: Option<string>): (v: View)
    ensures v != Nothing
    ensures v.Picture? && v.reportsErrors <==> Truthy(imgSrc)
    ensures Truthy(imgSrc) ==> v == Picture(imgSrc.value, alt, true)
    ensures !Truthy(imgSrc) && Truthy(initials) ==> v == InitialsText(initials.value)
    ensures !Truthy(imgSrc) && !Truthy(initials) ==> v == Picture(Fallback, "Default Avatar", false)
  {
    if Truthy(imgSrc) then Picture(imgSrc.value, alt, true)
    else if Truthy(initials) then InitialsText(initials.value)
    else if !Truthy(initials) then Picture(Fallback, "Default Avatar", false)
    else Nothing
  }

  /** `onError`: the first failure of the original image switches to the fallback; any other failure drops the image. */
  function AfterError(imgSrc: Option<string>, src: Option<string>): (r: Option<string>)
    ensures r == Some(Fallback) || r == None
    ensures r == Some(Fallback) <==> imgSrc == src
  {
    if imgSrc == src then Some(Fallback) else None
  }

  /** The image after `n` successive load failures, starting from `imgSrc`. */
  function AfterErrors(n: nat, imgSrc: Option<string>, src: Option<string>): Option<string>
  {
    if n == 0 then imgSrc else AfterErrors(n - 1, AfterError(imgSrc, src), src)
  }

  /**
   * From the original image, the first failure shows the fallback and the second drops the image,
   * for good: later failures cannot bring an image back. The exception is an avatar whose own image
   * is the fallback, which stays on the fallback.
   */
  lemma {:induction false} ErrorsSettle(n: nat, src: Option<string>)
    ensures n >= 1 && src.Some? && src != Some(Fallback) ==>
      AfterErrors(n, src, src) == (if n == 1 then Some(Fallback) else None)
    ensures src == Some(Fallback) ==> AfterErrors(n, src, src) == src
  {
    if n >= 2 && src.Some? && src != Some(Fallback) {
      DroppedStaysDropped(n - 2, src);
      assert AfterErrors(n, src, src) == AfterErrors(n - 2, None, src);
    } else if n >= 1 && src == Some(Fallback) {
      ErrorsSettle(n - 1, src);
    }
  }

  /** Once the image is dropped, further failures leave it dropped (for a present original image). */
  lemma {:induction false} DroppedStaysDropped(n: nat, src: Option<string>)
    requires src.Some?
    ensures AfterErrors(n, None, src) == None
  {
    if n > 0 {
      DroppedStaysDropped(n - 1, src);
    }
  }

  /**
   * After the fallback has failed too, nothing on screen reports load failures any more, so the
   * avatar's state is final.
   */
  lemma SecondFailureIsFinal(src: string, alt: string, initials: Option<string>)
    requires src != Fallback
    ensures AfterErrors(2, Some(src), Some(src)) == None
    ensures !Render(AfterErrors(2, Some(src), Some(src)), alt, initials).Picture? ||
            !Render(AfterErrors(2, Some(src), Some(src)), alt, initials).reportsErrors
  {
    ErrorsSettle(2, Some(src));
  }

  /** The avatar component: its props and the `imgSrc` state, which starts as `src`. */
  class AvatarState {
    const src: Option<string>
    const alt: string
    const initials: Option<string>
    var imgSrc: Option<string>

    constructor(src: Option<string>, alt: string, initials: Option<string>)
      ensures this.src == src && this.alt == alt && this.initials == initials
      ensures imgSrc == src
    {
      this.src := src;
      this.alt := alt;
      this.initials := initials;
      imgSrc := src;
    }

    function View(): (v: View)
      reads this
      ensures v != Nothing
      ensures v.Picture? && v.reportsErrors <==> Truthy(imgSrc)
    {
      Render(imgSrc, alt, initials)
    }

    /** The image failed to load. */
    method OnError()
      modifies this
      ensures imgSrc == AfterError(old(imgSrc), src)
    {
      if imgSrc == src {
        imgSrc := Some(Fallback);
      } else {
        imgSrc := None;
      }
    }
  }

  /**
   * A broken image with initials: after one failure the fallback picture shows, after the second
   * the initials do.
   */
  method BrokenImageWithInitials(src: string, alt: string, initials: string) returns (first: View, second: View)
    requires src != "" && src != Fallback && initials != ""
    ensures first == Picture(Fallback, alt, true)
    ensures second == InitialsText(initials)
  {
    var avatar := new AvatarState(Some(src), alt, Some(initials));
    avatar.OnError();
    first := avatar.View();
    avatar.OnError();
    second := avatar.View();
  }

  /** Without an image or initials the default picture shows, and it can never fail into another state. */
  lemma NoImageNoInitials(alt: string, initials: Option<string>)
    requires !Truthy(initials)
    ensures Render(None, alt, initials) == Picture(Fallback, "Default Avatar", false)
    ensures Render(Some(""), alt, initials) == Picture(Fallback, "Default Avatar", false)
  {
  }
}
