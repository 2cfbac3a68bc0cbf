/** Properties that relate the operations of the bookmark list to one
    another: hint and keypress, deletion and the shortcuts that move with
    it, appending, and reloading the page. */
module BookmarkProperties {

  import opened Wrappers
  import opened Ascii
  import opened Shortcuts
  import opened Bookmarks

  /** Pressing the hint shown on item `i`, in either case, navigates to
      bookmark `i`. */
  lemma HintRoundTrip(bms: seq<Bookmark>, i: nat, targetTag: string)
    requires i < |bms| && i < |ShortcutKeys|
    requires targetTag != "INPUT"
    ensures ItemAt(bms, i).hint.Some?
    ensures KeyDown(bms, targetTag, ItemAt(bms, i).hint.value) == Some(bms[i].url)
    ensures KeyDown(bms, targetTag, ShortcutKeys[i]) == Some(bms[i].url)
  {
    ShortcutKeysWellFormed();
    LowerOfLetter(ShortcutKeys[i][0]);
    assert ShortcutKeys[i] == [ShortcutKeys[i][0]];
  }

  /** A shortcut key whose position lies past the end of the list
      navigates nowhere. */
  lemma NoNavigationPastEnd(bms: seq<Bookmark>, j: nat, targetTag: string)
    requires |bms| <= j < |ShortcutKeys|
    ensures KeyDown(bms, targetTag, ShortcutKeys[j]) == None
  {
    ShortcutKeysWellFormed();
    LowerOfLetter(ShortcutKeys[j][0]);
    assert ShortcutKeys[j] == [ShortcutKeys[j][0]];
  }

  /** A key that is not in the alphabet, once lower-cased, navigates
      nowhere. */
  lemma UnknownKeyNavigatesNowhere(bms: seq<Bookmark>, targetTag: string, key: string)
    requires Lower(key) !in ShortcutKeys
    ensures KeyDown(bms, targetTag, key) == None
  {
  }

  /** Deleting entry `index` leaves the items before it as they were; every
      later bookmark moves down one place, takes the previous position's
      hint, and is reached by the previous alphabet letter. */
  lemma DeleteShiftsShortcuts(bms: seq<Bookmark>, index: nat, j: nat, targetTag: string)
    requires index < |bms| && j < |bms| - 1
    requires targetTag != "INPUT"
    ensures j < index ==> ItemAt(RemoveAt(bms, index), j) == ItemAt(bms, j)
    ensures index <= j ==>
      var item := ItemAt(RemoveAt(bms, index), j);
      item.name == bms[j + 1].name && item.url == bms[j + 1].url &&
      item.hint == ItemAt(bms, j).hint && item.deleteIndex == j
    ensures j < |ShortcutKeys| ==>
      KeyDown(RemoveAt(bms, index), targetTag, ShortcutKeys[j]) ==
        Some(if j < index then bms[j].url else bms[j + 1].url)
  {
    var r := RemoveAt(bms, index);
    if j < |ShortcutKeys| {
      HintRoundTrip(r, j, targetTag);
    }
  }

  /** Adding an entry keeps every existing item and shortcut; the new
      entry is drawn last and gets the next alphabet letter when one is
      left. */
  lemma AddKeepsShortcuts(bms: seq<Bookmark>, name: string, url: string, targetTag: string)
    requires targetTag != "INPUT"
    ensures var r := bms + [NewEntry(name, url)];
      forall j :: 0 <= j < |bms| ==> ItemAt(r, j) == ItemAt(bms, j)
    ensures var r := bms + [NewEntry(name, url)];
      ItemAt(r, |bms|).url == url &&
      (ItemAt(r, |bms|).hint.Some? <==> |bms| < |ShortcutKeys|)
    ensures |bms| < |ShortcutKeys| ==>
      KeyDown(bms + [NewEntry(name, url)], targetTag, ShortcutKeys[|bms|]) == Some(url)
  {
    var r := bms + [NewEntry(name, url)];
    forall j | 0 <= j < |bms|
      ensures ItemAt(r, j) == ItemAt(bms, j)
    {
      assert r[j] == bms[j];
    }
    if |bms| < |ShortcutKeys| {
      HintRoundTrip(r, |bms|, targetTag);
    }
  }

  /** With the default list, `f`, `J` and `d` open GitHub, YouTube and
      Reddit, and `k` (the fourth letter) does nothing. */
  lemma DefaultShortcuts()
    ensures KeyDown(Defaults(), "BODY", "f") == Some("https://github.com")
    ensures KeyDown(Defaults(), "BODY", "J") == Some("https://youtube.com")
    ensures KeyDown(Defaults(), "BODY", "d") == Some("https://reddit.com")
    ensures KeyDown(Defaults(), "BODY", "k") == None
  {
    var bms := Defaults();
    assert ShortcutKeys[0] == [Letters[0]] == "f";
    assert ShortcutKeys[1] == [Letters[1]] == "j";
    assert ShortcutKeys[2] == [Letters[2]] == "d";
    assert ShortcutKeys[3] == [Letters[3]] == "k";
    HintRoundTrip(bms, 0, "BODY");
    HintRoundTrip(bms, 1, "BODY");
    HintRoundTrip(bms, 2, "BODY");
    NoNavigationPastEnd(bms, 3, "BODY");
    assert Upper("j") == [UpperChar('j')] == "J";
  }

  /** Reloading the page after any mutation shows the same list: a fresh
      page state built from the saved slot adopts it unchanged. */
  method Reload(page: BookmarkStore) returns (reloaded: BookmarkStore, grid: seq<Item>)
    requires page.Synced()
    ensures reloaded.bookmarks == page.bookmarks
    ensures reloaded.Synced()
    ensures |grid| == |page.bookmarks|
  {
    reloaded := new BookmarkStore(page.stored);
    grid := reloaded.Init();
  }
}
