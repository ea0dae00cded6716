/** The `LanguageSwitcher` controller, with the page replaced by explicit
    state: the current language, the storage slot, the document language and
    title, the `language-switching` body class, the dropdown flags, the
    selector label and check marks, and the bilingual elements. */
module Switcher {
  import opened Language
  import opened Elements
  import Dropdown

  class LanguageSwitcher {
    var currentLang: string
    /** `localStorage['28tools-language']`. */
    var stored: Option<string>
    /** `document.documentElement.lang`. */
    var docLang: string
    /** `document.title`. */
    var title: string
    /** The `language-switching` class on the body. */
    var switching: bool
    /** The `show` class on the dropdown and the `active` class on the button. */
    var dropdownShown: bool
    var buttonActive: bool
    /** The `.language-text` element: whether the page has one, and its text. */
    const hasLabel: bool
    var labelText: string
    /** The `checkJa` and `checkEn` elements: presence and `visible` class. */
    const hasCheckJa: bool
    const hasCheckEn: bool
    var checkJa: bool
    var checkEn: bool
    /** The page's elements, in document order. */
    const elements: array<Element>

    function Flags(): Dropdown.Flags
      reads this
    {
      Dropdown.Flags(dropdownShown, buttonActive)
    }

    /** The switcher's invariant between events: the stored preference
        mirrors the current language, a supported language is the document
        language, the page is rendered in the current language, the selector
        reflects it, and the two dropdown flags agree. */
    ghost predicate Valid()
      reads this, elements
    {
      stored == Some(currentLang) &&
      (IsSupported(currentLang) ==> docLang == currentLang) &&
      Rendered(elements[..], currentLang, title) &&
      (hasLabel ==> labelText == Label(currentLang)) &&
      (hasCheckJa && hasCheckEn ==> CheckMarks(checkJa, checkEn) == Checks(currentLang)) &&
      Dropdown.Consistent(Flags())
    }

    /** `new LanguageSwitcher()` on a page: the language comes from the
        storage slot (`ja` when it is empty), is applied through
        `setLanguage`, and the selector is updated. The dropdown starts
        hidden. */
    constructor (storedPref: Option<string>, page: seq<Element>, pageLang: string, pageTitle: string,
                 labelPresent: bool, pageLabel: string, checkJaPresent: bool, checkEnPresent: bool,
                 checkJaVisible: bool, checkEnVisible: bool)
      ensures Valid() && fresh(elements)
      ensures currentLang == InitialLanguage(storedPref)
      ensures stored == Some(currentLang)
      ensures IsSupported(currentLang) ==>
                docLang == currentLang &&
                elements[..] == RewriteAll(page, currentLang) &&
                title == TitleAfter(page, currentLang, pageTitle)
      ensures !IsSupported(currentLang) ==>
                docLang == pageLang && elements[..] == page && title == pageTitle
      ensures labelText == (if labelPresent then Label(currentLang) else pageLabel)
      ensures CheckMarks(checkJa, checkEn) ==
                (if checkJaPresent && checkEnPresent then Checks(currentLang)
                 else CheckMarks(checkJaVisible, checkEnVisible))
      ensures hasLabel == labelPresent && hasCheckJa == checkJaPresent && hasCheckEn == checkEnPresent
      ensures !switching && !dropdownShown && !buttonActive
    {
      currentLang := InitialLanguage(storedPref);
      stored := storedPref;
      docLang := pageLang;
      title := pageTitle;
      switching := false;
      dropdownShown, buttonActive := false, false;
      hasLabel, labelText := labelPresent, pageLabel;
      hasCheckJa, hasCheckEn := checkJaPresent, checkEnPresent;
      checkJa, checkEn := checkJaVisible, checkEnVisible;
      elements := new Element[|page|](i requires 0 <= i < |page| => page[i]);
      new;
      assert elements[..] == page;
      SetLanguage(currentLang);
      UpdateUI();
      if !IsSupported(currentLang) {
        UnsupportedIsRendered(elements[..], currentLang, title);
      }
    }

    /** `toggleDropdown`. */
    method ToggleDropdown()
      modifies this
      ensures Flags() == Dropdown.Toggle(old(Flags()))
      ensures unchanged(this`currentLang, this`stored, this`docLang, this`title, this`switching)
      ensures unchanged(this`labelText, this`checkJa, this`checkEn)
    {
      if dropdownShown {
        HideDropdown();
      } else {
        ShowDropdown();
      }
    }

    /** `showDropdown`. */
    method ShowDropdown()
      modifies this
      ensures Flags() == Dropdown.Show(old(Flags()))
      ensures unchanged(this`currentLang, this`stored, this`docLang, this`title, this`switching)
      ensures unchanged(this`labelText, this`checkJa, this`checkEn)
    {
      dropdownShown := true;
      buttonActive := true;
    }

    /** `hideDropdown`. */
    method HideDropdown()
      modifies this
      ensures Flags() == Dropdown.Hide(old(Flags()))
      ensures unchanged(this`currentLang, this`stored, this`docLang, this`title, this`switching)
      ensures unchanged(this`labelText, this`checkJa, this`checkEn)
    {
      dropdownShown := false;
      buttonActive := false;
    }

    /** The synchronous half of `setLanguage`: anything but `ja` or `en` is
        rejected and changes nothing; otherwise the `language-switching`
        class is set and the commit is scheduled. */
    method BeginSetLanguage(lang: string) returns (accepted: bool)
      modifies this
      ensures accepted == IsSupported(lang)
      ensures !accepted ==> unchanged(this)
      ensures accepted ==> switching
      ensures unchanged(this`currentLang, this`stored, this`docLang, this`title)
      ensures unchanged(this`labelText, this`checkJa, this`checkEn, this`dropdownShown, this`buttonActive)
    {
      if lang != Japanese && lang != English {
        return false;
      }
      switching := true;
      return true;
    }

    /** The deferred body of `setLanguage`, run when its timer fires: the
        language is taken, stored and set on the document, every element and
        the selector are re-rendered, and the switching class is removed. */
    method CommitLanguage(lang: string)
      requires IsSupported(lang)
      requires Dropdown.Consistent(Flags())
      modifies this, elements
      ensures Valid()
      ensures currentLang == lang && stored == Some(lang) && docLang == lang && !switching
      ensures elements[..] == RewriteAll(old(elements[..]), lang)
      ensures title == TitleAfter(old(elements[..]), lang, old(title))
      ensures labelText == (if hasLabel then Label(lang) else old(labelText))
      ensures CheckMarks(checkJa, checkEn) ==
                (if hasCheckJa && hasCheckEn then Checks(lang) else old(CheckMarks(checkJa, checkEn)))
      ensures unchanged(this`dropdownShown, this`buttonActive)
    {
      currentLang := lang;
      stored := Some(lang);
      docLang := lang;
      UpdateAllElements();
      UpdateRenders(old(elements[..]), lang, old(title));
      UpdateUI();
      switching := false;
    }

    /** `setLanguage` with its timer taken as firing at once. */
    method SetLanguage(lang: string)
      requires Dropdown.Consistent(Flags())
      modifies this, elements
      ensures !IsSupported(lang) ==> unchanged(this) && unchanged(elements)
      ensures IsSupported(lang) ==>
                Valid() &&
                currentLang == lang && stored == Some(lang) && docLang == lang && !switching &&
                elements[..] == RewriteAll(old(elements[..]), lang) &&
                title == TitleAfter(old(elements[..]), lang, old(title)) &&
                labelText == (if hasLabel then Label(lang) else old(labelText)) &&
                CheckMarks(checkJa, checkEn) ==
                  (if hasCheckJa && hasCheckEn then Checks(lang) else old(CheckMarks(checkJa, checkEn)))
      ensures unchanged(this`dropdownShown, this`buttonActive)
    {
      var accepted := BeginSetLanguage(lang);
      if accepted {
        CommitLanguage(lang);
      }
    }

    /** `updateAllElements`: each selected element with a non-empty payload
        for the current language gets it written into the document title (a
        `TITLE` element), its `content` attribute (when it has one) or its
        text content. */
    method UpdateAllElements()
      modifies this`title, elements
      ensures elements[..] == RewriteAll(old(elements[..]), currentLang)
      ensures title == TitleAfter(old(elements[..]), currentLang, old(title))
    {
      ghost var page := elements[..];
      var i := 0;
      while i < elements.Length
        invariant 0 <= i <= elements.Length
        invariant forall k :: 0 <= k < i ==> elements[k] == Rewrite(page[k], currentLang)
        invariant forall k :: i <= k < elements.Length ==> elements[k] == page[k]
        invariant title == TitleAfter(page[..i], currentLang, old(title))
      {
        var element := elements[i];
        var text := Payload(element, currentLang);
        if IsBilingual(element) && text.Some? && text.value != "" {
          if element.tag == TitleTag {
            title := text.value;
          } else if element.hasContent {
            elements[i] := element.(content := text.value);
          } else {
            elements[i] := element.(text := text.value);
          }
        }
        assert page[..i + 1][..i] == page[..i];
        i := i + 1;
      }
      assert page[..i] == page;
    }

    /** `updateUI`: the label follows the current language when the label
        element exists, and the check marks do when both exist. */
    method UpdateUI()
      modifies this`labelText, this`checkJa, this`checkEn
      ensures labelText == (if hasLabel then Label(currentLang) else old(labelText))
      ensures CheckMarks(checkJa, checkEn) ==
                (if hasCheckJa && hasCheckEn then Checks(currentLang)
                 else old(CheckMarks(checkJa, checkEn)))
    {
      if hasLabel {
        labelText := Label(currentLang);
      }
      if hasCheckJa && hasCheckEn {
        var marks := Checks(currentLang);
        checkJa, checkEn := marks.ja, marks.en;
      }
    }

    /** A click on the language button toggles the dropdown. */
    method OnButtonClick()
      requires Valid()
      modifies this
      ensures Valid()
      ensures Flags() == Dropdown.Toggle(old(Flags()))
      ensures unchanged(this`currentLang, this`stored, this`docLang, this`title, this`switching)
      ensures unchanged(this`labelText, this`checkJa, this`checkEn)
    {
      ToggleDropdown();
    }

    /** A click on a language option applies its `data-lang` (absent reads as
        `null`, which is rejected) and hides the dropdown. */
    method OnOptionClick(dataLang: Option<string>)
      requires Valid()
      modifies this, elements
      ensures Valid()
      ensures Flags() == Dropdown.Flags(false, false)
      ensures dataLang.Some? && IsSupported(dataLang.value) ==>
                currentLang == dataLang.value && stored == dataLang && docLang == dataLang.value &&
                !switching &&
                elements[..] == RewriteAll(old(elements[..]), dataLang.value) &&
                title == TitleAfter(old(elements[..]), dataLang.value, old(title)) &&
                labelText == (if hasLabel then Label(dataLang.value) else old(labelText)) &&
                CheckMarks(checkJa, checkEn) ==
                  (if hasCheckJa && hasCheckEn then Checks(dataLang.value)
                   else old(CheckMarks(checkJa, checkEn)))
      ensures !(dataLang.Some? && IsSupported(dataLang.value)) ==>
                unchanged(this`currentLang, this`stored, this`docLang, this`title, this`switching) &&
                unchanged(this`labelText, this`checkJa, this`checkEn) &&
                unchanged(elements)
    {
      if dataLang.Some? {
        SetLanguage(dataLang.value);
      }
      assert Valid();
      ghost var rendered := elements[..];
      HideDropdown();
      assert elements[..] == rendered;
    }

    /** A click anywhere else hides the dropdown. */
    method OnDocumentClick()
      requires Valid()
      modifies this
      ensures Valid()
      ensures Flags() == Dropdown.Flags(false, false)
      ensures unchanged(this`currentLang, this`stored, this`docLang, this`title, this`switching)
      ensures unchanged(this`labelText, this`checkJa, this`checkEn)
    {
      HideDropdown();
    }

    /** Escape hides the dropdown; any other key leaves it. */
    method OnKeyDown(key: string)
      requires Valid()
      modifies this
      ensures Valid()
      ensures Flags() == if key == "Escape" then Dropdown.Flags(false, false) else old(Flags())
      ensures unchanged(this`currentLang, this`stored, this`docLang, this`title, this`switching)
      ensures unchanged(this`labelText, this`checkJa, this`checkEn)
    {
      if key == "Escape" {
        HideDropdown();
      }
    }
  }
}
