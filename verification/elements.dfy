/** Bilingual page elements and the rule by which `updateAllElements`
    rewrites them for a language. */
module Elements {
  import opened Language

  /** One element of the page as the switcher sees it: its tag name, its
      `data-ja` and `data-en` attributes (absent or present, possibly empty),
      whether it carries a `content` attribute, that attribute's value and its
      text content. */
  datatype Element = Element(
    tag: string,
    dataJa: Option<string>,
    dataEn: Option<string>,
    hasContent: bool,
    content: string,
    text: string)

  const TitleTag: string := "TITLE"

  /** The element matches the selector `[data-ja][data-en]`. */
  predicate IsBilingual(e: Element) {
    e.dataJa.Some? && e.dataEn.Some?
  }

  /** `getAttribute('data-' + lang)`; an element carries no payload attribute
      for a code other than the two known ones. */
  function Payload(e: Element, lang: string): (r: Option<string>)
    ensures lang == Japanese ==> r == e.dataJa
    ensures lang == English ==> r == e.dataEn
    ensures !IsSupported(lang) ==> r == None
  {
    if lang == Japanese then e.dataJa else if lang == English then e.dataEn else None
  }

  /** The element is selected and has a non-empty payload for `lang`. */
  predicate HasText(e: Element, lang: string) {
    IsBilingual(e) && Truthy(Payload(e, lang))
  }

  /** The element sets the document title. */
  predicate SetsTitle(e: Element, lang: string) {
    HasText(e, lang) && e.tag == TitleTag
  }

  /** The element has one of its own slots rewritten. */
  predicate Writes(e: Element, lang: string) {
    HasText(e, lang) && e.tag != TitleTag
  }

  /** The slot the switcher writes on a non-title element: the `content`
      attribute when there is one, the text content otherwise. */
  function Displayed(e: Element): string {
    if e.hasContent then e.content else e.text
  }

  /** What `updateAllElements` makes of one element: a writing element shows
      its payload in exactly one slot and keeps the other, and every other
      element (a title, an empty payload, a missing attribute) is left as it
      was. */
  function Rewrite(e: Element, lang: string): (r: Element)
    ensures r.tag == e.tag && r.dataJa == e.dataJa && r.dataEn == e.dataEn
    ensures r.hasContent == e.hasContent
    ensures Writes(e, lang) ==> Displayed(r) == Payload(e, lang).value
    ensures r.hasContent ==> r.text == e.text
    ensures !r.hasContent ==> r.content == e.content
    ensures !Writes(e, lang) ==> r == e
  {
    if !Writes(e, lang) then e
    else if e.hasContent then e.(content := Payload(e, lang).value)
    else e.(text := Payload(e, lang).value)
  }

  /** Every element rewritten, in place and in order. */
  function RewriteAll(es: seq<Element>, lang: string): (r: seq<Element>)
    ensures |r| == |es|
    ensures forall i :: 0 <= i < |es| ==> r[i] == Rewrite(es[i], lang)
  {
    seq(|es|, i requires 0 <= i < |es| => Rewrite(es[i], lang))
  }

  /** The document title after visiting `es` in order from `title`: each
      title element with a non-empty payload overwrites it. */
  function TitleAfter(es: seq<Element>, lang: string, title: string): string
    decreases |es|
  {
    if es == [] then title
    else
      var before := TitleAfter(es[..|es| - 1], lang, title);
      var e := es[|es| - 1];
      if SetsTitle(e, lang) then Payload(e, lang).value else before
  }

  predicate HasTitleSource(es: seq<Element>, lang: string) {
    exists i :: 0 <= i < |es| && SetsTitle(es[i], lang)
  }

  /** The page is fully rendered in `lang`: rewriting changes no element and
      no title. */
  predicate Rendered(es: seq<Element>, lang: string, title: string) {
    RewriteAll(es, lang) == es && TitleAfter(es, lang, title) == title
  }

  /** No title element with a payload: the title is left alone. */
  lemma {:induction false} TitleWithoutSource(es: seq<Element>, lang: string, title: string)
    requires !HasTitleSource(es, lang)
    ensures TitleAfter(es, lang, title) == title
  {
    if es != [] {
      var init := es[..|es| - 1];
      assert !HasTitleSource(init, lang) by {
        forall i | 0 <= i < |init| ensures !SetsTitle(init[i], lang) {
          assert init[i] == es[i];
        }
      }
      TitleWithoutSource(init, lang, title);
      assert !SetsTitle(es[|es| - 1], lang);
    }
  }

  /** The title is the payload of the last title element that has one. */
  lemma {:induction false} TitleIsLastSource(es: seq<Element>, lang: string, title: string, k: nat)
    requires k < |es| && SetsTitle(es[k], lang)
    requires forall j :: k < j < |es| ==> !SetsTitle(es[j], lang)
    ensures TitleAfter(es, lang, title) == Payload(es[k], lang).value
  {
    if k < |es| - 1 {
      var init := es[..|es| - 1];
      assert init[k] == es[k];
      forall j | k < j < |init| ensures !SetsTitle(init[j], lang) {
        assert init[j] == es[j];
      }
      TitleIsLastSource(init, lang, title, k);
    }
  }

  /** With a title source, the resulting title does not depend on the
      title the page started with. */
  lemma {:induction false} TitleIgnoresStart(es: seq<Element>, lang: string, t1: string, t2: string)
    requires HasTitleSource(es, lang)
    ensures TitleAfter(es, lang, t1) == TitleAfter(es, lang, t2)
  {
    var init := es[..|es| - 1];
    if !SetsTitle(es[|es| - 1], lang) {
      var i :| 0 <= i < |es| && SetsTitle(es[i], lang);
      assert init[i] == es[i];
      TitleIgnoresStart(init, lang, t1, t2);
    }
  }

  /** Rewriting never touches a title element, so a second pass finds the
      same title sources. */
  lemma {:induction false} TitleAfterRewrite(es: seq<Element>, lang: string, title: string)
    ensures TitleAfter(RewriteAll(es, lang), lang, title) == TitleAfter(es, lang, title)
  {
    if es != [] {
      var init := es[..|es| - 1];
      var rs := RewriteAll(es, lang);
      assert rs[..|rs| - 1] == RewriteAll(init, lang);
      TitleAfterRewrite(init, lang, title);
      var e := es[|es| - 1];
      assert SetsTitle(rs[|rs| - 1], lang) == SetsTitle(e, lang);
      assert SetsTitle(e, lang) ==> rs[|rs| - 1] == e;
    }
  }

  /** A rewritten element equals its old self exactly when it already showed
      its payload. */
  lemma RewriteFixedPoint(e: Element, lang: string)
    ensures Rewrite(e, lang) == e <==> (Writes(e, lang) ==> Displayed(e) == Payload(e, lang).value)
  {
  }

  /** Rendering is idempotent: after one pass of `updateAllElements` the page
      is rendered, so a second pass changes nothing. */
  lemma UpdateRenders(es: seq<Element>, lang: string, title: string)
    ensures Rendered(RewriteAll(es, lang), lang, TitleAfter(es, lang, title))
  {
    var rs := RewriteAll(es, lang);
    var t := TitleAfter(es, lang, title);
    forall i | 0 <= i < |es| ensures Rewrite(rs[i], lang) == rs[i] {
      RewriteFixedPoint(rs[i], lang);
    }
    assert RewriteAll(rs, lang) == rs;
    TitleAfterRewrite(es, lang, t);
    if HasTitleSource(es, lang) {
      TitleIgnoresStart(es, lang, t, title);
    } else {
      TitleWithoutSource(es, lang, t);
      TitleWithoutSource(es, lang, title);
    }
  }

  /** On a rendered page every element with text for the language shows it:
      no stale text. */
  lemma RenderedIsSynchronized(es: seq<Element>, lang: string, title: string)
    requires Rendered(es, lang, title)
    ensures forall i :: 0 <= i < |es| && Writes(es[i], lang) ==> Displayed(es[i]) == Payload(es[i], lang).value
    ensures forall k :: 0 <= k < |es| && SetsTitle(es[k], lang) &&
                        (forall j :: k < j < |es| ==> !SetsTitle(es[j], lang)) ==>
                        title == Payload(es[k], lang).value
  {
    forall i | 0 <= i < |es| && Writes(es[i], lang)
      ensures Displayed(es[i]) == Payload(es[i], lang).value
    {
      assert RewriteAll(es, lang)[i] == es[i];
    }
    forall k | 0 <= k < |es| && SetsTitle(es[k], lang) &&
               (forall j :: k < j < |es| ==> !SetsTitle(es[j], lang))
      ensures title == Payload(es[k], lang).value
    {
      TitleIsLastSource(es, lang, title, k);
    }
  }

  /** Any page is trivially rendered for a code that is not supported: no
      element carries a payload for it. */
  lemma UnsupportedIsRendered(es: seq<Element>, lang: string, title: string)
    requires !IsSupported(lang)
    ensures Rendered(es, lang, title)
  {
    assert RewriteAll(es, lang) == es;
    TitleWithoutSource(es, lang, title);
  }

  /** The last switch wins: an element with text for `second` shows the same
      after switching to `first` and then `second` as after switching to
      `second` alone. */
  lemma SwitchOverwrites(e: Element, first: string, second: string)
    requires Writes(e, second)
    ensures Rewrite(Rewrite(e, first), second) == Rewrite(e, second)
  {
  }
}
