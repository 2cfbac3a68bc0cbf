/** The bookmark list of script.js: its entries, the items `render` draws
    for them, the keydown shortcut lookup, and the page state that holds
    the list together with its saved copy. */
module Bookmarks {

  import opened Wrappers
  import opened Ascii
  import opened Shortcuts

  datatype Bookmark = Bookmark(name: string, url: string)

  /** One grid entry as `render` draws it: the upper-cased shortcut hint
      when the position has one, the name, the link target and the index
      bound to its delete button. */
  datatype Item = Item(hint: Option<string>, name: string, url: string, deleteIndex: nat)

  /** The list a first visit starts from. */
  function Defaults(): (bms: seq<Bookmark>)
    ensures |bms| == 3
    ensures forall i :: 0 <= i < |bms| ==> Upper(bms[i].name) == bms[i].name
  {
    [ Bookmark("GITHUB", "https://github.com"),
      Bookmark("YOUTUBE", "https://youtube.com"),
      Bookmark("REDDIT", "https://reddit.com") ]
  }

  /** The entry the add form pushes: the name upper-cased, the URL as
      typed. */
  function NewEntry(name: string, url: string): (b: Bookmark)
    ensures b.url == url
    ensures |b.name| == |name|
    ensures forall k :: 0 <= k < |name| ==>
      !IsLowerLetter(b.name[k]) && LowerChar(b.name[k]) == LowerChar(name[k])
  {
    Bookmark(Upper(name), url)
  }

  /** `splice(index, 1)` on a valid index: the entry at `index` is gone,
      earlier entries stay put and later ones move down one place. */
  function RemoveAt(bms: seq<Bookmark>, index: nat): (r: seq<Bookmark>)
    requires index < |bms|
    ensures |r| == |bms| - 1
    ensures forall j :: 0 <= j < index ==> r[j] == bms[j]
    ensures forall j :: index <= j < |r| ==> r[j] == bms[j + 1]
  {
    bms[..index] + bms[index + 1..]
  }

  /** The item `render` draws for position `index`: the hint is shown
      exactly when the alphabet has a key for that position; it is drawn
      upper-case, and that key is the hint lower-cased. */
  function ItemAt(bms: seq<Bookmark>, index: nat): (item: Item)
    requires index < |bms|
    ensures item.name == bms[index].name && item.url == bms[index].url
    ensures item.deleteIndex == index
    ensures item.hint.Some? <==> index < |ShortcutKeys|
    ensures item.hint.Some? ==> Lower(item.hint.value) == ShortcutKeys[index]
    ensures item.hint.Some? ==>
      forall k :: 0 <= k < |item.hint.value| ==> !IsLowerLetter(item.hint.value[k])
  {
    var key := ShortcutFor(index);
    if key != "" then
      ShortcutKeysWellFormed();
      LowerOfLetter(key[0]);
      assert key == [key[0]];
      Item(Some(Upper(key)), bms[index].name, bms[index].url, index)
    else
      Item(None, bms[index].name, bms[index].url, index)
  }

  /** The keydown handler: a key pressed inside an input field is ignored;
      otherwise the lower-cased key is looked up in the alphabet, and the
      page navigates to the bookmark at that position when there is one. */
  function KeyDown(bms: seq<Bookmark>, targetTag: string, key: string): (nav: Option<string>)
    ensures targetTag == "INPUT" ==> nav == None
    ensures nav.Some? <==>
      targetTag != "INPUT" &&
      exists i :: 0 <= i < |bms| && i < |ShortcutKeys| && ShortcutKeys[i] == Lower(key)
    ensures forall i :: 0 <= i < |bms| && i < |ShortcutKeys| && ShortcutKeys[i] == Lower(key) ==>
      targetTag != "INPUT" ==> nav == Some(bms[i].url)
  {
    if targetTag == "INPUT" then None
    else
      var pressedKey := Lower(key);
      var index := IndexOf(ShortcutKeys, pressedKey);
      ShortcutKeysWellFormed();
      if index != -1 && index < |bms| then
        assert forall i :: 0 <= i < |ShortcutKeys| && ShortcutKeys[i] == pressedKey ==> i == index;
        Some(bms[index].url)
      else
        None
  }

  /** The page state: the in-memory list and the storage slot that holds
      its saved copy (None when nothing was ever saved). */
  class BookmarkStore {
    var bookmarks: seq<Bookmark>
    var stored: Option<seq<Bookmark>>

    /** The saved copy is the list in memory. */
    ghost predicate Synced()
      reads this
    {
      stored == Some(bookmarks)
    }

    /** Page load: the list starts empty and storage holds whatever an
        earlier visit left in it. */
    constructor (saved: Option<seq<Bookmark>>)
      ensures bookmarks == [] && stored == saved
    {
      bookmarks := [];
      stored := saved;
    }

    method Save()
      modifies this
      ensures Synced()
      ensures bookmarks == old(bookmarks)
    {
      stored := Some(bookmarks);
    }

    /** Draws one item per bookmark, in list order. */
    method Render() returns (grid: seq<Item>)
      ensures |grid| == |bookmarks|
      ensures forall i :: 0 <= i < |grid| ==> grid[i] == ItemAt(bookmarks, i)
    {
      grid := [];
      var index := 0;
      while index < |bookmarks|
        invariant index <= |bookmarks|
        invariant |grid| == index
        invariant forall i :: 0 <= i < index ==> grid[i] == ItemAt(bookmarks, i)
      {
        var bm := bookmarks[index];
        var key := ShortcutFor(index);
        var hint := if key != "" then Some(Upper(key)) else None;
        var item := Item(hint, bm.name, bm.url, index);
        assert item == ItemAt(bookmarks, index);
        grid := grid + [item];
        index := index + 1;
      }
    }

    /** Adopts the saved list when there is one, otherwise starts from the
        defaults and saves them; then draws the grid. */
    method Init() returns (grid: seq<Item>)
      modifies this
      ensures old(stored).Some? ==> bookmarks == old(stored).value
      ensures old(stored).None? ==> bookmarks == Defaults()
      ensures Synced()
      ensures |grid| == |bookmarks|
      ensures forall i :: 0 <= i < |grid| ==> grid[i] == ItemAt(bookmarks, i)
    {
      if stored.Some? {
        bookmarks := stored.value;
      } else {
        bookmarks := Defaults();
        Save();
      }
      grid := Render();
    }

    /** The delete button of item `index`: removes that entry, saves and
        redraws. */
    method Delete(index: nat) returns (grid: seq<Item>)
      requires index < |bookmarks|
      modifies this
      ensures bookmarks == RemoveAt(old(bookmarks), index)
      ensures Synced()
      ensures |grid| == |bookmarks|
      ensures forall i :: 0 <= i < |grid| ==> grid[i] == ItemAt(bookmarks, i)
    {
      bookmarks := RemoveAt(bookmarks, index);
      Save();
      grid := Render();
    }

    /** The add form's submit: appends the new entry, saves and redraws. */
    method Add(name: string, url: string) returns (grid: seq<Item>)
      modifies this
      ensures bookmarks == old(bookmarks) + [NewEntry(name, url)]
      ensures Synced()
      ensures |grid| == |bookmarks|
      ensures forall i :: 0 <= i < |grid| ==> grid[i] == ItemAt(bookmarks, i)
    {
      bookmarks := bookmarks + [NewEntry(name, url)];
      Save();
      grid := Render();
    }
  }
}
