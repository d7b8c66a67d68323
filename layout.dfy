/** Choice of the screen layout from the host platform and the window size,
    and the controls each layout puts on screen. */
module Layout {

  /** The three mutually exclusive render modes. */
  datatype Mode =
    | WideDesktop       // web in landscape: header, dropdown, card between arrows, shuffle button
    | LandscapeCompact  // native in landscape: card between arrows only
    | Portrait          // any platform with width <= height: full controls

  /** The window is in landscape when it is strictly wider than it is tall. */
  predicate IsLandscape(width: real, height: real) {
    width > height
  }

  /** The layout for platform `os` (the host's platform name, "web" for a
      browser) and a window of `width` by `height`. */
  function SelectLayout(os: string, width: real, height: real): (m: Mode)
    ensures m == WideDesktop <==> os == "web" && width > height
    ensures m == LandscapeCompact <==> os != "web" && width > height
    ensures m == Portrait <==> width <= height
  {
    if os == "web" && IsLandscape(width, height) then WideDesktop
    else if IsLandscape(width, height) then LandscapeCompact
    else Portrait
  }

  /** The tap targets of the screen. */
  datatype Control =
    | PreviousButton
    | NextButton
    | ShuffleResetButton
    | DropdownButton
    | CategoryItem(category: string)

  /** The controls a layout shows, given whether the dropdown is open and the
      catalog's category names. The compact layout shows only the two arrows;
      the others show every control, and the category items only while the
      dropdown is open. */
  function Controls(m: Mode, isDropdownOpen: bool, categories: set<string>): (cs: set<Control>)
    ensures PreviousButton in cs && NextButton in cs
    ensures ShuffleResetButton in cs <==> m != LandscapeCompact
    ensures DropdownButton in cs <==> m != LandscapeCompact
    ensures forall c :: CategoryItem(c) in cs <==> m != LandscapeCompact && isDropdownOpen && c in categories
    ensures m == LandscapeCompact ==> cs == {PreviousButton, NextButton}
  {
    if m == LandscapeCompact then {PreviousButton, NextButton}
    else
      {PreviousButton, NextButton, ShuffleResetButton, DropdownButton}
      + (if isDropdownOpen then set c | c in categories :: CategoryItem(c) else {})
  }

  /** The web landscape layout keeps the full set of controls of the portrait
      one; only native landscape drops the dropdown and the shuffle button. */
  lemma WideDesktopKeepsControls(isDropdownOpen: bool, categories: set<string>)
    ensures Controls(WideDesktop, isDropdownOpen, categories) == Controls(Portrait, isDropdownOpen, categories)
  {
  }

  /** The two handlers the shuffle/reset button can run. */
  datatype Handler = Shuffle | Reset

  /** The shuffle/reset button resets the order of a shuffled list and
      shuffles a list in catalog order. */
  function ShuffleResetAction(isShuffled: bool): (h: Handler)
    ensures h == Reset <==> isShuffled
    ensures h == Shuffle <==> !isShuffled
  {
    if isShuffled then Reset else Shuffle
  }
}
