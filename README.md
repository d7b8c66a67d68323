# Slate Plus prompt browser, modelled in Dafny

Slate Plus is a single-screen app. It shows one prompt card at a time, drawn from a chosen
category of a fixed catalog. The user can step forwards and backwards through the cards,
with wrap-around at both ends. The user can also shuffle the category's cards, restore
catalog order, and pick another category from a dropdown. The screen is drawn in one of
three layouts, chosen from the host platform and the window's shape.

This project models the screen's state machine and its layout choice:

- `navigation.dfy` (module `Navigation`): the index arithmetic of the "next" and "previous"
  arrows as pure functions. Lemmas cover their range, their inverse relation, repeated
  presses and the full cycle.
- `layout.dfy` (module `Layout`): the three render modes and which of them is chosen. It also
  gives the controls each mode shows and the handler the shuffle/reset button runs.
- `browser.dfy` (module `PromptBrowser`): the class `Browser`. Its fields are the screen's
  five state variables plus the read-only catalog. There is one method per event handler,
  `Press` dispatches a tap on any control, and read-only functions give what the card shows.
  `Valid()` is the state invariant that every method preserves. It says three things:
  the selected category is in the catalog; the active list holds exactly that category's
  prompts, and in catalog order unless shuffled; the index is in range.

The catalog (`categories.json`) is not part of this model. It is a constructor parameter,
and the constructor requires two things of it: every category is non-empty, and the
default category "Pop Culture & Entertainment" is present. The platform name and the
window size are plain inputs to `Layout.SelectLayout`. Window sizes are `real`s, which
stand in for the host's numbers.

JavaScript's `%` and Dafny's `%` agree on the non-negative operands that occur here.
At the index arithmetic they are used interchangeably.

## Model

| member | source | states |
|---|---|---|
| PromptBrowser.Browser.constructor | app/index.tsx:10-14 | initial state: default category, its catalog list in order, index 0, not shuffled, dropdown closed; the invariant holds |
| PromptBrowser.Browser.ChangeCategory | app/index.tsx:18-24 | whatever the prior state: category `c`, list `catalog[c]` in catalog order, index 0, not shuffled, dropdown closed; invariant kept |
| PromptBrowser.Browser.NextCard | app/index.tsx:26-28 | only the index changes, to `Next` of the old index; invariant (index in range) kept |
| PromptBrowser.Browser.PreviousCard | app/index.tsx:30-32 | only the index changes, to `Previous` of the old index; invariant kept |
| PromptBrowser.Shuffled | app/index.tsx:35 | the shuffled copy is some rearrangement of the given list: same multiset, same length |
| PromptBrowser.Browser.ShuffleCards | app/index.tsx:34-39 | list becomes a permutation of the selected category's catalog list, index 0, shuffled; category and dropdown unchanged |
| PromptBrowser.Browser.ResetCards | app/index.tsx:41-45 | list becomes exactly the catalog list, index 0, not shuffled; category and dropdown unchanged |
| PromptBrowser.Browser.ToggleDropdown | app/index.tsx:59 | only the dropdown flag changes, to its negation |
| PromptBrowser.Browser.Press | app/index.tsx:157-222 | a tap runs its control's handler; the shuffle/reset button resets exactly when shuffled and shuffles otherwise; a category item selects that category |
| PromptBrowser.Browser.CardCount | app/index.tsx:55 | the "of N" count is the selected category's catalog size, shuffled or not, and is positive |
| PromptBrowser.Browser.CardNumber | app/index.tsx:99 | the displayed counter `currentIndex + 1` lies in `[1, N]` |
| PromptBrowser.Browser.CurrentPrompt | app/index.tsx:97 | the prompt shown belongs to the selected category; unshuffled, it is the catalog's prompt at the index |
| Navigation.Next | app/index.tsx:27 | result in `[0, n)`; from an index in range it is `i + 1`, or 0 from the last card |
| Navigation.Previous | app/index.tsx:31 | from an index in range the result is in `[0, n)`; `n - 1` from 0, `i - 1` otherwise |
| Navigation.PreviousNext | app/index.tsx:26-32 | `Previous(Next(i)) == i` for every index in range |
| Navigation.NextPrevious | app/index.tsx:26-32 | `Next(Previous(i)) == i` for every index in range |
| Navigation.NextTimes | app/index.tsx:26-28 | `k` presses of "next" from an index in range stay in range |
| Navigation.PreviousTimes | app/index.tsx:30-32 | `k` presses of "previous" from an index in range stay in range |
| Navigation.NextTimesAdd | app/index.tsx:26-28 | `a` presses then `b` presses equal `a + b` presses |
| Navigation.NextTimesNoWrap | app/index.tsx:26-28 | before the wrap, `k` presses advance the index by exactly `k` |
| Navigation.WrapToFirst | app/index.tsx:26-28 | from index `i`, `n - i` presses reach the first card |
| Navigation.NextCycle | app/index.tsx:26-28 | `n` presses of "next" return to the starting index |
| Navigation.NextTimesMod | app/index.tsx:26-28 | `k` presses of "next" from index `i` land on `(i + k) % n` |
| Navigation.PreviousTimesNextTimes | app/index.tsx:26-32 | `k` presses of "previous" undo `k` presses of "next" |
| Navigation.PreviousCycle | app/index.tsx:30-32 | `n` presses of "previous" return to the starting index |
| Navigation.SingleCard | app/index.tsx:26-32 | with one card both arrows stay on index 0 |
| Layout.SelectLayout | app/index.tsx:47-49 | total three-way choice: wide-desktop iff web and `width > height`, landscape-compact iff not web and `width > height`, portrait iff `width <= height` |
| Layout.Controls | app/index.tsx:49-226 | both arrows are always shown; the compact layout shows only them; the others add the dropdown and shuffle/reset buttons, plus one item per category while the dropdown is open |
| Layout.WideDesktopKeepsControls | app/index.tsx:49-226 | web landscape offers the same controls as portrait |
| Layout.ShuffleResetAction | app/index.tsx:110 | the button runs reset exactly when the list is shuffled, shuffle otherwise |

## Left out

- Rendering: the JSX trees, styles, `Stack.Screen`, button labels and arrow glyphs, and the highlighting of the selected category in the dropdown. These are presentation only.
- The card sizes `width - 60` and `height * 0.45`. These are floating-point layout sizes with no effect on state.
- `Platform.OS` and `useWindowDimensions` are host queries. They enter `Layout.SelectLayout` as plain parameters.
- The host's random order. `Math.random()` inside a comparator-driven sort is modelled as a free choice of any permutation, and nothing is claimed about uniformity.
- The contents of `categories.json`, which are not part of this model. The catalog is a parameter with a non-empty entry per category.
- React's asynchronous, batched state updates. Each handler is one atomic update of the fields it sets.
- An empty category is excluded by the catalog precondition. It would give `NaN` or `-1` indices in the source.
- PromptBrowser.Browser.ShuffleCards: the list is built from the catalog list and not from the current one. The model cannot tell the two apart, because both have the same multiset of prompts. Its contract states the permutation property only.
- PromptBrowser.Browser.Valid relates the shuffled flag to the list in one direction only: not shuffled implies catalog order. A random shuffle may return the catalog order, so the converse does not hold.
