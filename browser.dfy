/** The prompt browser: the screen's mutable state and its event handlers. */
module PromptBrowser {
  import opened Navigation
  import opened Layout

  /** The category shown when the screen first appears. */
  const DefaultCategory: string := "Pop Culture & Entertainment"

  /** The catalog maps each category name to its prompts, in catalog order.
      Every category holds at least one prompt. */
  predicate WellFormed(catalog: map<string, seq<string>>) {
    forall c :: c in catalog ==> |catalog[c]| > 0
  }

  /** A snapshot of the five state variables of the screen. */
  datatype State = State(
    selectedCategory: string,
    currentIndex: nat,
    isShuffled: bool,
    shuffledPrompts: seq<string>,
    isDropdownOpen: bool)

  /** A shuffled copy of `prompts`: the order is chosen at random by the
      host, so any rearrangement of the same prompts may come back. */
  method Shuffled(prompts: seq<string>) returns (r: seq<string>)
    ensures multiset(r) == multiset(prompts)
    ensures |r| == |prompts|
  {
    assert multiset(prompts) == multiset(prompts);
    r :| multiset(r) == multiset(prompts);
    assert |r| == |multiset(r)| == |multiset(prompts)| == |prompts|;
  }

  class Browser {
    /** The read-only catalog of categories. */
    const catalog: map<string, seq<string>>

    var selectedCategory: string
    var currentIndex: nat
    var isShuffled: bool
    /** The active list: the selected category's prompts, in catalog order or shuffled. */
    var shuffledPrompts: seq<string>
    var isDropdownOpen: bool

    /** The state invariant: a known category is selected, the active list
        holds exactly its prompts (in catalog order unless shuffled), and the
        index points into the active list. */
    ghost predicate Valid()
      reads this
    {
      && WellFormed(catalog)
      && selectedCategory in catalog
      && multiset(shuffledPrompts) == multiset(catalog[selectedCategory])
      && (!isShuffled ==> shuffledPrompts == catalog[selectedCategory])
      && currentIndex < |shuffledPrompts|
    }

    /** The current values of the five state variables. */
    function View(): State
      reads this
    {
      State(selectedCategory, currentIndex, isShuffled, shuffledPrompts, isDropdownOpen)
    }

    /** The screen as it first appears: the default category in catalog
        order, on its first card, with the dropdown closed. */
    constructor (catalog: map<string, seq<string>>)
      requires WellFormed(catalog) && DefaultCategory in catalog
      ensures Valid() && this.catalog == catalog
      ensures View() == State(DefaultCategory, 0, false, catalog[DefaultCategory], false)
    {
      this.catalog := catalog;
      selectedCategory := DefaultCategory;
      currentIndex := 0;
      isShuffled := false;
      shuffledPrompts := catalog[DefaultCategory];
      isDropdownOpen := false;
    }

    /** Picking a category from the dropdown: whatever the state before, the
        new category is shown in catalog order from its first card, and the
        dropdown closes. */
    method ChangeCategory(category: string)
      requires Valid() && category in catalog
      modifies this
      ensures Valid()
      ensures View() == State(category, 0, false, catalog[category], false)
    {
      selectedCategory := category;
      shuffledPrompts := catalog[category];
      currentIndex := 0;
      isShuffled := false;
      isDropdownOpen := false;
    }

    /** The "next" arrow: only the index moves, wrapping from the last card
        to the first. */
    method NextCard()
      requires Valid()
      modifies this
      ensures Valid()
      ensures View() == old(View()).(currentIndex := Next(old(currentIndex), |shuffledPrompts|))
    {
      currentIndex := Next(currentIndex, |shuffledPrompts|);
    }

    /** The "previous" arrow: only the index moves, wrapping from the first
        card to the last. */
    method PreviousCard()
      requires Valid()
      modifies this
      ensures Valid()
      ensures View() == old(View()).(currentIndex := Previous(old(currentIndex), |shuffledPrompts|))
    {
      currentIndex := Previous(currentIndex, |shuffledPrompts|);
    }

    /** Shuffling: the active list becomes a rearrangement of the selected
        category's catalog list (never of the current, possibly already
        shuffled, list) shown from its first card; the category and the
        dropdown are left alone. */
    method ShuffleCards()
      requires Valid()
      modifies this
      ensures Valid()
      ensures multiset(shuffledPrompts) == multiset(catalog[selectedCategory])
      ensures |shuffledPrompts| == |catalog[selectedCategory]|
      ensures View() == old(View()).(currentIndex := 0, isShuffled := true, shuffledPrompts := shuffledPrompts)
    {
      var shuffled := Shuffled(catalog[selectedCategory]);
      shuffledPrompts := shuffled;
      currentIndex := 0;
      isShuffled := true;
    }

    /** Resetting the order: the selected category's catalog list, from its
        first card; the category and the dropdown are left alone. */
    method ResetCards()
      requires Valid()
      modifies this
      ensures Valid()
      ensures View() == old(View()).(currentIndex := 0, isShuffled := false, shuffledPrompts := catalog[selectedCategory])
    {
      shuffledPrompts := catalog[selectedCategory];
      currentIndex := 0;
      isShuffled := false;
    }

    /** The dropdown button opens a closed dropdown and closes an open one,
        and changes nothing else. */
    method ToggleDropdown()
      requires Valid()
      modifies this
      ensures Valid()
      ensures View() == old(View()).(isDropdownOpen := !old(isDropdownOpen))
    {
      isDropdownOpen := !isDropdownOpen;
    }

    /** A tap on control `c`. The dropdown lists only the catalog's
        categories, and the shuffle/reset button resets a shuffled list and
        shuffles one in catalog order. */
    method Press(c: Control)
      requires Valid()
      requires c.CategoryItem? ==> c.category in catalog
      modifies this
      ensures Valid()
      ensures c == PreviousButton ==>
        View() == old(View()).(currentIndex := Previous(old(currentIndex), |shuffledPrompts|))
      ensures c == NextButton ==>
        View() == old(View()).(currentIndex := Next(old(currentIndex), |shuffledPrompts|))
      ensures c == ShuffleResetButton && old(isShuffled) ==>
        View() == old(View()).(currentIndex := 0, isShuffled := false, shuffledPrompts := catalog[selectedCategory])
      ensures c == ShuffleResetButton && !old(isShuffled) ==>
        && multiset(shuffledPrompts) == multiset(catalog[selectedCategory])
        && View() == old(View()).(currentIndex := 0, isShuffled := true, shuffledPrompts := shuffledPrompts)
      ensures c == DropdownButton ==>
        View() == old(View()).(isDropdownOpen := !old(isDropdownOpen))
      ensures c.CategoryItem? ==>
        View() == State(c.category, 0, false, catalog[c.category], false)
    {
      match c
      case PreviousButton => PreviousCard();
      case NextButton => NextCard();
      case ShuffleResetButton =>
        if ShuffleResetAction(isShuffled) == Reset {
          ResetCards();
        } else {
          ShuffleCards();
        }
      case DropdownButton => ToggleDropdown();
      case CategoryItem(category) => ChangeCategory(category);
    }

    /** The number of cards in the active list, shown as "of N": always the
        size of the selected category, shuffled or not. */
    function CardCount(): (n: nat)
      reads this
      requires Valid()
      ensures n == |catalog[selectedCategory]|
      ensures 0 < n
    {
      assert |shuffledPrompts| == |multiset(shuffledPrompts)|;
      |shuffledPrompts|
    }

    /** The card number on screen, counting from one: between 1 and the
        number of cards. */
    function CardNumber(): (k: nat)
      reads this
      requires Valid()
      ensures 1 <= k <= CardCount()
    {
      currentIndex + 1
    }

    /** The prompt on the card: one of the selected category's prompts, and
        the catalog's prompt at the index while the list is not shuffled. */
    function CurrentPrompt(): (p: string)
      reads this
      requires Valid()
      ensures p in catalog[selectedCategory]
      ensures !isShuffled ==> p == catalog[selectedCategory][currentIndex]
    {
      assert shuffledPrompts[currentIndex] in multiset(shuffledPrompts);
      shuffledPrompts[currentIndex]
    }
  }
}
