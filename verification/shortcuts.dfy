/** The shortcut alphabet of script.js and the two lookups over it: the key
    shown for a list position, and the position a pressed key selects. */
module Shortcuts {

  import opened Ascii

  /** Home row first, then the top row, then the bottom row. */
  const Letters: string := "fjdksalghrueiwoqtyvbnmcz"

  /** Concatenates the parts, in order: the inverse of `Split`. */
  function Join(parts: seq<string>): string
  {
    if parts == [] then "" else parts[0] + Join(parts[1..])
  }

  /** `split("")`: one single-character string per character, which
      joined back together give the string again. */
  function Split(s: string): (parts: seq<string>)
    ensures |parts| == |s|
    ensures forall i :: 0 <= i < |parts| ==> |parts[i]| == 1
    ensures forall i :: 0 <= i < |s| ==> parts[i] == [s[i]]
    ensures Join(parts) == s
  {
    var parts := seq(|s|, i requires 0 <= i < |s| => [s[i]]);
    JoinSingletons(s, parts);
    parts
  }

  /** Joining the one-character strings of `s`, position by position,
      gives `s`. */
  lemma {:induction false} JoinSingletons(s: string, parts: seq<string>)
    requires |parts| == |s|
    requires forall i :: 0 <= i < |s| ==> parts[i] == [s[i]]
    ensures Join(parts) == s
  {
    if s != [] {
      JoinSingletons(s[1..], parts[1..]);
      assert parts[0] == [s[0]];
      assert s == [s[0]] + s[1..];
    }
  }

  const ShortcutKeys: seq<string> := Split(Letters)

  ghost predicate Distinct<T>(xs: seq<T>)
  {
    forall i, j :: 0 <= i < j < |xs| ==> xs[i] != xs[j]
  }

  /** The alphabet has 24 entries, each a single lower-case letter, no two
      of them alike. */
  lemma ShortcutKeysWellFormed()
    ensures |ShortcutKeys| == 24
    ensures forall i :: 0 <= i < |ShortcutKeys| ==>
      |ShortcutKeys[i]| == 1 && IsLowerLetter(ShortcutKeys[i][0])
    ensures Distinct(ShortcutKeys)
  {
    assert forall i, j :: 0 <= i < j < |Letters| ==> Letters[i] != Letters[j];
    forall i, j | 0 <= i < j < |ShortcutKeys|
      ensures ShortcutKeys[i] != ShortcutKeys[j]
    {
      assert ShortcutKeys[i][0] == Letters[i];
      assert ShortcutKeys[j][0] == Letters[j];
    }
  }

  /** JavaScript's `Array.prototype.indexOf` with strict equality: the
      first position holding `k`, or -1 when there is none. */
  function IndexOf(keys: seq<string>, k: string): (r: int)
    ensures -1 <= r < |keys|
    ensures r == -1 <==> k !in keys
    ensures 0 <= r ==> keys[r] == k
    ensures forall j :: 0 <= j < r ==> keys[j] != k
  {
    if keys == [] then -1
    else if keys[0] == k then 0
    else
      var r := IndexOf(keys[1..], k);
      if r == -1 then -1 else r + 1
  }

  /** In a list with no repeated entry, `indexOf` finds every entry at its
      own position. */
  lemma {:induction false} IndexOfDistinct(keys: seq<string>, i: nat)
    requires Distinct(keys)
    requires i < |keys|
    ensures IndexOf(keys, keys[i]) == i
  {
    assert keys[i] in keys;
  }

  /** `SHORTCUT_KEYS[index] || ""`: the key for a list position, or the
      empty string past the end of the alphabet. */
  function ShortcutFor(index: nat): (key: string)
    ensures key == "" <==> index >= |ShortcutKeys|
    ensures index < |ShortcutKeys| ==> key == ShortcutKeys[index]
  {
    if index < |ShortcutKeys| then ShortcutKeys[index] else ""
  }

  /** Looking up the key of a position gives that position back. */
  lemma ShortcutRoundTrip(index: nat)
    requires index < |ShortcutKeys|
    ensures IndexOf(ShortcutKeys, ShortcutFor(index)) == index
  {
    ShortcutKeysWellFormed();
    IndexOfDistinct(ShortcutKeys, index);
  }
}
