# Start page bookmarks, in Dafny

This project models the bookmark grid of a browser start page (`script.js`):
an ordered list of `{name, url}` bookmarks kept in memory and in a
local-storage slot, the grid that `render` draws from it, and the keyboard
shortcuts that open a bookmark with one keypress.

- `wrappers.dfy` — `Option`, used for the storage slot, hints and navigation.
- `ascii.dfy` — `Upper` and `Lower`, ASCII models of `toUpperCase` and
  `toLowerCase`.
- `shortcuts.dfy` — the 24-letter shortcut alphabet (home row, then top row,
  then bottom row), `indexOf`, and the key for each list position.
- `bookmarks.dfy` — the `Bookmark` and grid `Item` values, the default list,
  the entry the add form builds, removal at a position, the item drawn for a
  position, the keydown handler, and the class `BookmarkStore` holding the
  global list and its saved copy, with `Init`, `Save`, `Render`, `Delete`
  and `Add` as methods that change it.
- `properties.dfy` — lemmas that tie these together: the hint on item *i*
  opens bookmark *i*; deleting shifts later bookmarks onto the previous
  letter; adding keeps every existing shortcut; a reload shows the saved list.

The storage slot is `stored: Option<seq<Bookmark>>`. `None` means nothing
was ever saved. `Init` adopts any saved list, an empty one included: the
source tests the saved text for truthiness, and the text of an empty list
is non-empty. Only when nothing is stored does it fall back to GITHUB,
YOUTUBE and REDDIT and save them. Every mutation ends with the saved copy
equal to the list in memory (`BookmarkStore.Synced`). Navigation is not a
side effect here: `KeyDown` returns the URL the page would go to, or
`None`.

## Model

| member | source | states |
|---|---|---|
| `Ascii.Upper` | script.js:64 | the result has the input's length, no lower-case ASCII letter, and equals the input letter for letter once both are lower-cased |
| `Ascii.Lower` | script.js:79 | the result has the input's length, no upper-case ASCII letter, and equals the input letter for letter once both are upper-cased |
| `Ascii.LowerOfLetter` | script.js:79 | a one-letter lower-case key is unchanged by lower-casing, whether pressed as it is or upper-cased |
| `Shortcuts.Split` | script.js:3 | splitting a string yields one single-character part per character, and joining the parts back gives the string |
| `Shortcuts.JoinSingletons` | script.js:3 | for every string, concatenating its characters as one-character strings, in order, rebuilds it |
| `Shortcuts.ShortcutKeysWellFormed` | script.js:3 | the shortcut alphabet has 24 entries, each one lower-case letter, pairwise distinct |
| `Shortcuts.IndexOf` | script.js:80 | the result is -1 exactly when the key is absent; otherwise it is the first position holding the key |
| `Shortcuts.IndexOfDistinct` | script.js:80 | in a list without repeats, looking up the entry at position *i* gives *i* |
| `Shortcuts.ShortcutFor` | script.js:34 | position *i* gets alphabet key *i* when *i* < 24 and the empty string otherwise |
| `Shortcuts.ShortcutRoundTrip` | script.js:34 | looking up the key assigned to position *i* gives back *i* |
| `Bookmarks.Defaults` | script.js:16-20 | the first-visit list has three entries, all with upper-case names |
| `Bookmarks.NewEntry` | script.js:63-66 | the pushed entry keeps the URL verbatim and has the typed name upper-cased, same length, same letters |
| `Bookmarks.RemoveAt` | script.js:51 | removing at a valid index shortens the list by one, keeps earlier entries and moves each later entry down one place |
| `Bookmarks.ItemAt` | script.js:33-42 | item *i* shows bookmark *i*'s name and URL and delete index *i*; it has a hint exactly when *i* < 24, the hint is drawn with no lower-case letter, and the hint lower-cased is alphabet key *i* |
| `Bookmarks.KeyDown` | script.js:76-85 | a key in an input field never navigates; otherwise the key navigates exactly when its lower-cased form is the key of some position in the list, and then to that bookmark's URL |
| `Bookmarks.BookmarkStore.constructor` | script.js:8 | page load starts with an empty list and the storage contents of earlier visits |
| `Bookmarks.BookmarkStore.Save` | script.js:26-28 | the saved copy becomes the list in memory; the list is unchanged |
| `Bookmarks.BookmarkStore.Render` | script.js:30-45 | one item per bookmark, in list order, item *i* being `ItemAt(bookmarks, i)` |
| `Bookmarks.BookmarkStore.Init` | script.js:10-24 | a saved list is adopted unchanged, otherwise the defaults are used; either way the saved copy equals the list and the grid shows it |
| `Bookmarks.BookmarkStore.Delete` | script.js:48-54 | the list loses exactly the entry at the index and the rest shift down; the saved copy equals the new list and the grid shows it |
| `Bookmarks.BookmarkStore.Add` | script.js:57-72 | the list gains exactly the new entry at its end with the prefix unchanged; the saved copy equals the new list and the grid shows it |
| `BookmarkProperties.HintRoundTrip` | script.js:34-83 | pressing the hint shown on item *i*, in either case, outside an input field, navigates to bookmark *i*'s URL |
| `BookmarkProperties.NoNavigationPastEnd` | script.js:82-84 | an alphabet key whose position is past the end of the list navigates nowhere |
| `BookmarkProperties.UnknownKeyNavigatesNowhere` | script.js:79-84 | a key whose lower-cased form is not in the alphabet navigates nowhere |
| `BookmarkProperties.DeleteShiftsShortcuts` | script.js:51-53 | after deleting at *index*, earlier items are unchanged and each later bookmark takes the previous position's hint and is opened by the previous alphabet letter |
| `BookmarkProperties.AddKeepsShortcuts` | script.js:63-69 | after adding, every existing item and shortcut is unchanged, and the new entry is opened by the next alphabet letter when one is left |
| `BookmarkProperties.DefaultShortcuts` | script.js:16-20 | with the default list, `f`, `J` and `d` open GitHub, YouTube and Reddit, and `k` opens nothing |
| `BookmarkProperties.Reload` | script.js:10-13 | a page rebuilt from the saved slot after any mutation shows the same list |

## Left out

- Clock and date display (`updateClock`, the one-second timer): wall-clock side effects with nothing to state.
- DOM construction: `innerHTML`, `createElement`, `appendChild`, `addForm.reset()`, `preventDefault` and `stopPropagation`. `Render` returns the items it would draw instead.
- Null checks on missing page elements (the grid, the form and its inputs): these guard against a broken page, not list logic; the model assumes the elements exist.
- JSON serialisation and `localStorage`: the slot holds a list of bookmarks directly, so the storage key, malformed saved text (where `JSON.parse` throws) and storage quota failures are not modelled.
- `Ascii.Upper`: models only ASCII case mapping; JavaScript's `toUpperCase` follows Unicode and can change the length of a name (`ß` becomes `SS`).
- `Ascii.Lower`: models only ASCII case mapping; with full Unicode lower-casing a few non-ASCII keys (the Kelvin sign, for one) lower-case to an alphabet letter and would also navigate.
- `Bookmarks.BookmarkStore.Delete`: requires a valid index; `splice` with a negative or out-of-range index is not modelled, since the delete buttons only ever pass the positions `render` drew.
- The keydown target is modelled by its tag name only; a key typed in an element other than `INPUT` (a text area, say) is treated as a shortcut, as in the source.
- Search suggestions, to-do lists and URL detection are not part of `script.js` and not part of this model.
