# Language switcher of the 28tools manual page, in Dafny

The 28tools manual is a static bilingual (Japanese/English) page. Its script
`js/manual_script.js` holds a `LanguageSwitcher` object. The object keeps the
current language and saves it in local storage under `28tools-language`. When
the language changes, it rewrites every element that carries both a `data-ja`
and a `data-en` attribute. It also updates the language button's label and the
two check marks, and it opens and closes a small dropdown menu. Two pure
helpers sit beside the class. `detectBrowserLanguage` chooses a language from
the saved value and the browser's language tag; it is defined in the script
but nothing calls it, so a first visit always starts in `ja` (line 6). The
feature-card handler takes a target id from an `href`.

The model replaces the page with explicit state:

- `Language` (`language.dfy`) holds the pure decisions. These are the initial
  language (`stored || 'ja'`), the label choice, the check marks and
  `detectBrowserLanguage`. `localStorage` and `navigator` become `Option`
  parameters.
- `Elements` (`elements.dfy`) holds the element record, with its tag, optional
  `data-ja` and `data-en`, whether it has a `content` attribute, `content` and
  `textContent`. It also holds the per-element rule of `updateAllElements` as
  the function `Rewrite`, and the document title as a fold over the elements in
  document order (`TitleAfter`). A page is `Rendered` in a language when a
  further pass would change nothing. The lemmas show that one pass renders the
  page (idempotence), and that a rendered page has no stale text. They also show
  that the title is the payload of the last `TITLE` element that has one.
- `Dropdown` (`dropdown.dfy`) covers the two classes `show` and `active` as a
  two-flag state machine.
- `SmoothScroll` (`scroll.dfy`) covers `href.substring(1)`.
- `Switcher` (`switcher.dfy`) holds the class `LanguageSwitcher`. Its fields
  are the current language, the storage slot, the document `lang`, the
  document title, the `language-switching` flag, the dropdown and button
  flags, the label and check marks (with whether those elements exist), and an
  array of elements. Each method is specified against the functions above.
  `Valid()` is the invariant kept between events. It says that the stored
  value mirrors the current language, and that a supported language is the
  document language. It also says that the page is rendered in the current
  language, that the selector shows the current language, and that the two
  dropdown flags agree.

`setLanguage` defers its work by 150 ms. It is modelled as two steps:
`BeginSetLanguage` is the guard plus the `language-switching` class, and
`CommitLanguage` is the timer body. `SetLanguage` runs both in one step. The
constructor runs `SetLanguage` and then `UpdateUI`. In the page, `updateUI`
runs before the timer fires, but the end state is the same, because both
updates read the same current language.

An unrecognised non-empty stored value such as `fr` stays the current
language: `setLanguage` rejects it and nothing falls back to `ja`. The button
then reads `English` with neither check mark visible. See
`Language.UnrecognisedStoredLanguage` and the constructor's contract.

## Model

| member | source | states |
|---|---|---|
| Language.InitialLanguage | js/manual_script.js:6 | a non-empty stored value is taken as it is; an absent or empty one gives `ja`; the result is never empty |
| Language.Label | js/manual_script.js:122 | the label is `日本語` exactly when the language is `ja`, and `English` exactly when it is not |
| Language.Checks | js/manual_script.js:129-132 | `checkJa` is visible iff the language is `ja`, `checkEn` iff it is `en`; never both |
| Language.ExactlyOneCheckMark | js/manual_script.js:129-132 | exactly one check mark is visible iff the language is supported; for any other value neither is |
| Language.UnrecognisedStoredLanguage | js/manual_script.js:5-13 | an unrecognised non-empty stored value stays the current language, which is unsupported, with label `English` and no check mark |
| Language.BrowserTag | js/manual_script.js:189 | `navigator.language` when it is non-empty, else `navigator.userLanguage`, which may be absent |
| Language.DetectBrowserLanguage | js/manual_script.js:185-191 | a non-empty saved value is returned unchanged; otherwise the result is absent exactly when the browser tag is (the thrown TypeError), and is otherwise `ja` or `en`, `en` iff the tag starts with "en" |
| Language.DetectWithoutSavedValue | js/manual_script.js:189-190 | without a saved value and with a browser tag, detection yields a supported code, `ja` iff the tag does not start with "en" |
| Elements.Payload | js/manual_script.js:105 | `data-ja` for `ja`, `data-en` for `en`; the record carries no other `data-` attribute, so any other code has no payload (in the page `getAttribute('data-fr')` could read one, but the guard at line 78 means the method only ever runs with `ja` or `en`) |
| Elements.Rewrite | js/manual_script.js:104-115 | an element with both attributes, a non-empty payload and a tag other than `TITLE` shows the payload in its `content` attribute if it has one, else in its text, keeping the other slot and its attributes; every other element is unchanged |
| Elements.RewriteAll | js/manual_script.js:101-116 | the element list keeps its length, and each element is rewritten by the per-element rule |
| Elements.TitleWithoutSource | js/manual_script.js:104-108 | with no `TITLE` element carrying a non-empty payload, the document title is unchanged |
| Elements.TitleIsLastSource | js/manual_script.js:104-108 | the document title becomes the payload of the last `TITLE` element with a non-empty payload |
| Elements.TitleIgnoresStart | js/manual_script.js:104-108 | once some `TITLE` element has a payload, the resulting title does not depend on the previous title |
| Elements.TitleAfterRewrite | js/manual_script.js:107-108 | rewriting leaves `TITLE` elements alone, so a second pass computes the same title |
| Elements.RewriteFixedPoint | js/manual_script.js:106-113 | rewriting leaves an element unchanged iff it already shows its payload or is not written |
| Elements.UpdateRenders | js/manual_script.js:101-116 | after one pass the page is rendered: a second pass changes no element and no title (idempotence) |
| Elements.RenderedIsSynchronized | js/manual_script.js:101-116 | on a rendered page every written element shows its payload, and the title is the last title payload: no stale text |
| Elements.UnsupportedIsRendered | js/manual_script.js:105-106 | for an unsupported code no element has a payload, so every page counts as rendered |
| Elements.SwitchOverwrites | js/manual_script.js:104-113 | for an element with text in the second language, switching to any language and then to the second equals switching to the second directly |
| Dropdown.Show | js/manual_script.js:61-67 | both the `show` and the `active` flag are set |
| Dropdown.Hide | js/manual_script.js:69-75 | both flags are cleared |
| Dropdown.Toggle | js/manual_script.js:50-59 | both flags become the negation of the old `show` flag |
| Dropdown.HideIdempotent | js/manual_script.js:69-75 | hiding twice is hiding once |
| Dropdown.TransitionsConsistent | js/manual_script.js:50-75 | show, hide and toggle all leave the two flags equal |
| Dropdown.ToggleTwice | js/manual_script.js:50-59 | from agreeing flags, two toggles restore the original flags |
| SmoothScroll.TargetId | js/manual_script.js:152 | the result is the `href` without its first character, and empty for an empty `href` |
| SmoothScroll.AnchorTarget | js/manual_script.js:152 | `#id` yields `id` |
| Switcher.LanguageSwitcher.constructor | js/manual_script.js:5-14 | the current language is the initial language of the storage slot; a supported one is stored, set on the document and rendered; an unsupported one leaves the slot, document and elements as they were; the selector shows it; the presence of the label and check-mark elements is that of the page; the invariant holds, with the dropdown hidden |
| Switcher.LanguageSwitcher.ToggleDropdown | js/manual_script.js:50-59 | the flags follow `Toggle`, and no language state changes |
| Switcher.LanguageSwitcher.ShowDropdown | js/manual_script.js:61-67 | the flags follow `Show`, and no language state changes |
| Switcher.LanguageSwitcher.HideDropdown | js/manual_script.js:69-75 | the flags follow `Hide`, and no language state changes |
| Switcher.LanguageSwitcher.BeginSetLanguage | js/manual_script.js:77-81 | accepted iff the code is `ja` or `en`; a rejected code changes nothing; an accepted one sets only the switching flag |
| Switcher.LanguageSwitcher.CommitLanguage | js/manual_script.js:83-98 | the current language, the stored value and the document `lang` all equal the code; elements and title are rewritten; the selector is updated; the switching flag is cleared; the invariant holds |
| Switcher.LanguageSwitcher.SetLanguage | js/manual_script.js:77-99 | any code other than `ja` or `en` changes nothing, including no element; a valid one commits as above |
| Switcher.LanguageSwitcher.UpdateAllElements | js/manual_script.js:101-116 | the element array becomes `RewriteAll` of the old array and the title becomes `TitleAfter` of the old elements (loop over the array in place) |
| Switcher.LanguageSwitcher.UpdateUI | js/manual_script.js:118-133 | the label follows `Label` when the label element exists, and the check marks follow `Checks` when both check elements exist; otherwise they are untouched |
| Switcher.LanguageSwitcher.OnButtonClick | js/manual_script.js:22-25 | a click on the button toggles the dropdown, keeps the invariant and changes no language state, label or check mark |
| Switcher.LanguageSwitcher.OnOptionClick | js/manual_script.js:28-35 | a supported `data-lang` is committed in full (language, stored value, document `lang`, elements, title, label, check marks, switching flag cleared); any other value, including a missing attribute, changes none of these; the dropdown is then hidden |
| Switcher.LanguageSwitcher.OnDocumentClick | js/manual_script.js:38-40 | a click outside hides the dropdown and changes no language state, label or check mark |
| Switcher.LanguageSwitcher.OnKeyDown | js/manual_script.js:43-47 | Escape hides the dropdown; any other key leaves it as it was; no language state, label or check mark changes |

## Left out

- Timers: the 150 ms delay of `setLanguage` is one atomic commit (`CommitLanguage`). Overlapping commits from calls less than 150 ms apart are not modelled, and neither is the 2000 ms highlight reset.
- `setupSmoothScroll`: only the target id is modelled. `getElementById`, `scrollIntoView` and the background highlight are browser layout and visual effects. A card without an `href` (where `substring` would throw on `null`) is not modelled.
- Event plumbing: listener registration, `stopPropagation`, `preventDefault`, the `DOMContentLoaded` bootstrap and the Alt+L shortcut are not modelled. Alt+L fires a synthetic click on the language button, which has the same effect as `OnButtonClick`.
- `localStorage` and `navigator` are foreign APIs. They become an `Option<string>` slot and `Option<string>` parameters. A storage write that throws (quota, private mode) is not modelled.
- A missing `languageBtn` or `languageDropdown` element is not modelled; the model assumes both exist. Without `languageBtn` the constructor throws while registering listeners. `languageDropdown` is looked up there but not used, so without it the constructor succeeds and the first toggle, show or hide (a button click, an outside click or Escape) throws. The label and check-mark elements may be missing, as the code allows.
- Initial dropdown state: the model starts with both flags clear, as on a fresh page load. `Valid` relies on this to keep the two flags equal.
- Nested bilingual elements: setting `textContent` on an element removes its descendants from the document. The model treats the elements as a flat list of independent records.
- Document title and the `TITLE` element: in the page, assigning `document.title` rewrites the text of the document's first `<title>` element, which is the `TITLE` element being read. The model keeps the title as its own slot and leaves that element's record as it was, and the constructor takes the starting title independently of the records. No stated property depends on this, but after a commit the record's `text` no longer matches the title.
- SmoothScroll.TargetId: drops the first character (a Unicode code point), while `substring(1)` drops the first UTF-16 code unit; the two differ when the `href` starts with a character outside the Basic Multilingual Plane.
- Only `js/manual_script.js` is modelled.
