/** The lazy image loader (`ImageLoader`, `js/image-loader.js`): which elements are being
    loaded, which are done, which the intersection observer watches and which classes an element
    gets at the end, plus the choice of a background's URL. Elements are abstract identities;
    the network fetch of an image ends in success or failure, chosen by the caller. */
module ImageLoader {
  import opened Wrappers
  import opened Strings

  /** An element of the page. */
  type Element = nat

  /** The sets the loader keeps (`queue`, `loading`, `loaded`), the elements the observer
      watches and the elements that were given the `loaded` or the `error` class. */
  datatype LoaderState = LoaderState(
    queue: set<Element>, loading: set<Element>, loaded: set<Element>,
    observed: set<Element>, loadedClass: set<Element>, errorClass: set<Element>)

  /** An element is never both in flight and done. */
  predicate Disjoint(s: LoaderState) {
    s.loading !! s.loaded
  }

  /** The synchronous start of `loadImage`: an element already in flight or done is left alone;
      any other one joins `loading` and is no longer observed. */
  function Start(s: LoaderState, e: Element): (r: LoaderState)
    ensures e in s.loading || e in s.loaded ==> r == s
    ensures e !in s.loading && e !in s.loaded ==>
      r == s.(loading := s.loading + {e}, observed := s.observed - {e})
  {
    if e in s.loading || e in s.loaded then s
    else s.(loading := s.loading + {e}, observed := s.observed - {e})
  }

  /** `loadImage` up to its first `await`. An `IMG`, a `SOURCE` or an element with `data-bg`
      (`awaits`) waits for its image; any other element, such as a `div` with `data-src` that
      `loadAll` picks, reaches no `await` and so is marked loaded in the same step. */
  function StartLoad(s: LoaderState, e: Element, awaits: bool, fadeIn: bool): (r: LoaderState)
    ensures e in s.loading || e in s.loaded ==> r == s
    ensures e !in s.loading && e !in s.loaded && awaits ==> r == Start(s, e)
    ensures e !in s.loading && e !in s.loaded && !awaits ==> r == Complete(Start(s, e), e, fadeIn)
    ensures Disjoint(s) ==> Disjoint(r)
  {
    if e in s.loading || e in s.loaded then s
    else if awaits then Start(s, e)
    else Complete(Start(s, e), e, fadeIn)
  }

  /** The end of a successful load: the element moves from `loading` to `loaded` and gets the
      `loaded` class when fade-in is on. */
  function Complete(s: LoaderState, e: Element, fadeIn: bool): (r: LoaderState)
    ensures r.loaded == s.loaded + {e} && r.loading == s.loading - {e}
    ensures r.loadedClass == (if fadeIn then s.loadedClass + {e} else s.loadedClass)
    ensures r.errorClass == s.errorClass && r.observed == s.observed && r.queue == s.queue
  {
    var t := s.(loaded := s.loaded + {e}, loading := s.loading - {e});
    if fadeIn then t.(loadedClass := t.loadedClass + {e}) else t
  }

  /** The end of a failed load: the element leaves `loading`, is not marked loaded and gets the
      `error` class. */
  function Fail(s: LoaderState, e: Element): (r: LoaderState)
    ensures r.loading == s.loading - {e} && r.loaded == s.loaded
    ensures r.errorClass == s.errorClass + {e} && r.loadedClass == s.loadedClass
    ensures r.observed == s.observed && r.queue == s.queue
  {
    s.(loading := s.loading - {e}, errorClass := s.errorClass + {e})
  }

  /** `observe`: an element already loaded is not watched again. */
  function Observe(s: LoaderState, e: Element): (r: LoaderState)
    ensures e in s.loaded ==> r == s
    ensures e !in s.loaded ==> r == s.(observed := s.observed + {e})
  {
    if e in s.loaded then s else s.(observed := s.observed + {e})
  }

  /** `destroy`: the observer is disconnected and the three sets are emptied. */
  function Destroy(s: LoaderState): (r: LoaderState)
    ensures r.queue == {} && r.loading == {} && r.loaded == {} && r.observed == {}
    ensures r.loadedClass == s.loadedClass && r.errorClass == s.errorClass
  {
    s.(queue := {}, loading := {}, loaded := {}, observed := {})
  }

  /** Every step keeps `loading` and `loaded` apart. */
  lemma StepsKeepDisjoint(s: LoaderState, e: Element, awaits: bool, fadeIn: bool)
    requires Disjoint(s)
    ensures Disjoint(StartLoad(s, e, awaits, fadeIn))
    ensures Disjoint(Start(s, e)) && Disjoint(Complete(s, e, fadeIn)) && Disjoint(Fail(s, e))
    ensures Disjoint(Observe(s, e)) && Disjoint(Destroy(s))
  {
  }

  /** A second `loadImage` of the same element, while the first is in flight or after it has
      succeeded, changes nothing. */
  lemma StartIsIdempotent(s: LoaderState, e: Element, awaits: bool, fadeIn: bool)
    ensures StartLoad(StartLoad(s, e, awaits, fadeIn), e, awaits, fadeIn) == StartLoad(s, e, awaits, fadeIn)
    ensures Start(Start(s, e), e) == Start(s, e)
    ensures Start(Complete(s, e, fadeIn), e) == Complete(s, e, fadeIn)
  {
  }

  /** After a failure the element may be loaded again, and it is not observed until then. */
  lemma RetryAfterFailure(s: LoaderState, e: Element)
    requires Disjoint(s) && e !in s.loaded && e !in s.loading
    ensures var f := Fail(Start(s, e), e);
      e !in f.loading && e !in f.loaded && e !in f.observed && e in f.errorClass
      && Start(f, e).loading == f.loading + {e}
  {
  }

  /** The state after each element of `es` was started in turn; `awaited` holds the elements
      whose `loadImage` waits for an image. */
  function StartAll(s: LoaderState, es: seq<Element>, awaited: set<Element>, fadeIn: bool): (r: LoaderState)
    ensures Disjoint(s) ==> Disjoint(r)
    ensures r.errorClass == s.errorClass && r.queue == s.queue
    decreases |es|
  {
    if es == [] then s
    else
      var s1 := StartLoad(s, es[0], es[0] in awaited, fadeIn);
      StartAll(s1, es[1..], awaited, fadeIn)
  }

  /** Starting a list of elements puts every listed element that is not done and waits for an
      image into `loading`, marks loaded every listed element that waits for nothing and was
      not in flight, and stops observing every listed element that was neither. */
  lemma {:induction false} StartAllLoading(s: LoaderState, es: seq<Element>, awaited: set<Element>, fadeIn: bool)
    ensures StartAll(s, es, awaited, fadeIn).loading
      == s.loading + (set e | e in es && e in awaited && e !in s.loaded)
    ensures StartAll(s, es, awaited, fadeIn).loaded
      == s.loaded + (set e | e in es && e !in awaited && e !in s.loading)
    ensures StartAll(s, es, awaited, fadeIn).observed
      == s.observed - (set e | e in es && e !in s.loaded && e !in s.loading)
    decreases |es|
  {
    if es != [] {
      var s1 := StartLoad(s, es[0], es[0] in awaited, fadeIn);
      StartAllLoading(s1, es[1..], awaited, fadeIn);
      assert forall e :: e in es <==> e == es[0] || e in es[1..];
    }
  }

  /** The URL `loadBackgroundImage` preloads and sets: `data-bg-webp` when WebP is supported and
      that attribute is there and non-empty, otherwise `data-bg`. `webpSupport` is `None` until
      the probe image has answered, which counts as unsupported. */
  function BackgroundUrl(bg: Option<string>, bgWebp: Option<string>, webpSupport: Option<bool>): (url: Option<string>)
    ensures webpSupport == Some(true) && Truthy(bgWebp) ==> url == bgWebp
    ensures !(webpSupport == Some(true) && Truthy(bgWebp)) ==> url == bg
  {
    if webpSupport == Some(true) && Truthy(bgWebp) then bgWebp else bg
  }

  /** `url(${imageUrl})`; a missing attribute is the value `null`. */
  function CssUrl(url: Option<string>): (css: string)
    ensures |css| >= 5 && StartsWith(css, "url(") && EndsWith(css, ")")
    ensures url.Some? ==> css[4..|css| - 1] == url.value
  {
    var inner := match url case Some(u) => u case None => "null";
    var css := "url(" + inner + ")";
    assert css[..4] == "url(" && css[|css| - 1..] == ")" && css[4..|css| - 1] == inner;
    css
  }

  class Loader {
    var queue: set<Element>
    var loading: set<Element>
    var loaded: set<Element>
    var observed: set<Element>
    var loadedClass: set<Element>
    var errorClass: set<Element>
    /** `options.fadeIn` (on unless the caller passes `false`). */
    const fadeIn: bool
    /** `options.webpSupport`: `None` until the probe has loaded or failed. */
    var webpSupport: Option<bool>

    /** The loader's sets as a value. */
    function State(): LoaderState
      reads this
    {
      LoaderState(queue, loading, loaded, observed, loadedClass, errorClass)
    }

    predicate Valid()
      reads this
    {
      Disjoint(State())
    }

    /** `new ImageLoader(options)`, after `observeImages` has handed the lazy elements found in
        the page to the observer. */
    constructor (fadeInOption: Option<bool>, lazy: set<Element>)
      ensures Valid()
      ensures fadeIn <==> fadeInOption != Some(false)
      ensures State() == LoaderState({}, {}, {}, lazy, {}, {}) && webpSupport == None
    {
      queue, loading, loaded, observed := {}, {}, {}, lazy;
      loadedClass, errorClass := {}, {};
      fadeIn := fadeInOption != Some(false);
      webpSupport := None;
    }

    /** The probe image's `onload`/`onerror`: WebP is supported iff it decoded to height 2. */
    method ProbeAnswered(height: int)
      modifies this
      ensures webpSupport == Some(height == 2) && State() == old(State())
    {
      webpSupport := Some(height == 2);
    }

    /** `loadImage` up to its first `await`; `awaits` says whether the element is an `IMG`, a
        `SOURCE` or carries `data-bg`. */
    method LoadImage(e: Element, awaits: bool) returns (started: bool)
      requires Valid()
      modifies this
      ensures Valid() && webpSupport == old(webpSupport)
      ensures started <==> e !in old(loading) && e !in old(loaded)
      ensures State() == StartLoad(old(State()), e, awaits, fadeIn)
    {
      if e in loading || e in loaded {
        return false;
      }
      loading := loading + {e};
      observed := observed - {e};
      started := true;
      if !awaits {
        CompleteLoad(e);
      }
    }

    /** The rest of `loadImage` when the element's image has loaded. */
    method CompleteLoad(e: Element)
      requires Valid()
      modifies this
      ensures Valid() && webpSupport == old(webpSupport)
      ensures State() == Complete(old(State()), e, fadeIn)
    {
      loaded := loaded + {e};
      loading := loading - {e};
      if fadeIn {
        loadedClass := loadedClass + {e};
      }
    }

    /** The `catch` of `loadImage`, when the element's image failed to load. */
    method FailLoad(e: Element)
      requires Valid()
      modifies this
      ensures Valid() && webpSupport == old(webpSupport)
      ensures State() == Fail(old(State()), e)
    {
      loading := loading - {e};
      errorClass := errorClass + {e};
    }

    /** The observer's callback (for the intersecting entries, in order) and `loadAll`: each
        element is started in turn; `awaited` holds the listed elements that wait for an image. */
    method LoadEach(es: seq<Element>, awaited: set<Element>)
      requires Valid()
      modifies this
      ensures Valid() && webpSupport == old(webpSupport)
      ensures State() == StartAll(old(State()), es, awaited, fadeIn)
    {
      var n := 0;
      while n < |es|
        invariant 0 <= n <= |es|
        invariant Valid() && webpSupport == old(webpSupport)
        invariant StartAll(State(), es[n..], awaited, fadeIn) == StartAll(old(State()), es, awaited, fadeIn)
      {
        assert es[n..][1..] == es[n + 1..];
        var _ := LoadImage(es[n], es[n] in awaited);
        n := n + 1;
      }
    }

    /** `observe`. */
    method ObserveElement(e: Element)
      requires Valid()
      modifies this
      ensures Valid() && webpSupport == old(webpSupport)
      ensures State() == Observe(old(State()), e)
    {
      if e !in loaded {
        observed := observed + {e};
      }
    }

    /** `destroy`. */
    method DestroyLoader()
      requires Valid()
      modifies this
      ensures Valid() && webpSupport == old(webpSupport)
      ensures State() == Destroy(old(State()))
    {
      observed := {};
      queue := {};
      loading := {};
      loaded := {};
    }
  }
}
