/** The two flags behind the language menu: the dropdown's `show` class and
    the button's `active` class. */
module Dropdown {

  datatype Flags = Flags(shown: bool, active: bool)

  /** `showDropdown`: both classes added. */
  function Show(f: Flags): (r: Flags)
    ensures r.shown && r.active
  {
    Flags(true, true)
  }

  /** `hideDropdown`: both classes removed. */
  function Hide(f: Flags): (r: Flags)
    ensures !r.shown && !r.active
  {
    Flags(false, false)
  }

  /** `toggleDropdown`: hide when the dropdown is shown, show otherwise; only
      the dropdown's own flag is consulted. */
  function Toggle(f: Flags): (r: Flags)
    ensures r.shown == !f.shown && r.active == !f.shown
  {
    if f.shown then Hide(f) else Show(f)
  }

  /** The flags agree, as they do from a page load on. */
  predicate Consistent(f: Flags) {
    f.shown == f.active
  }

  lemma HideIdempotent(f: Flags)
    ensures Hide(Hide(f)) == Hide(f)
  {
  }

  /** Every transition keeps the flags in agreement. */
  lemma TransitionsConsistent(f: Flags)
    ensures Consistent(Show(f)) && Consistent(Hide(f)) && Consistent(Toggle(f))
  {
  }

  /** Two toggles restore consistent flags. */
  lemma ToggleTwice(f: Flags)
    requires Consistent(f)
    ensures Toggle(Toggle(f)) == f
  {
  }
}
