/** Text operations the screens use: substring search and ASCII lower-casing. */
module Strings {

  /** `s` occurs in `text` at position `i`. */
  ghost predicate OccursAt(text: string, s: string, i: int) {
    0 <= i && i + |s| <= |text| && text[i..i + |s|] == s
  }

  /** Kotlin's `text.contains(s)`: `s` occurs somewhere in `text`. */
  ghost predicate ContainsSpec(text: string, s: string) {
    exists i :: OccursAt(text, s, i)
  }

  /** A decision procedure for substring search. */
  function Contains(text: string, s: string): (b: bool)
    ensures b <==> ContainsSpec(text, s)
    decreases |text|
  {
    if |s| <= |text| && text[..|s|] == s then
      assert OccursAt(text, s, 0);
      true
    else if |text| == 0 then
      assert forall i :: !OccursAt(text, s, i);
      false
    else
      var r := Contains(text[1..], s);
      assert forall i :: 0 <= i && OccursAt(text[1..], s, i) <==> OccursAt(text, s, i + 1);
      assert !OccursAt(text, s, 0);
      assert forall i :: OccursAt(text, s, i) ==> i == 0 || OccursAt(text[1..], s, i - 1);
      r
  }

  /** `lowercase()` on ASCII letters; other characters are left as they are. */
  function LowerChar(c: char): (d: char)
    ensures 'A' <= c <= 'Z' ==> d as int == c as int + 32
    ensures !('A' <= c <= 'Z') ==> d == c
    ensures !('A' <= d <= 'Z')
  {
    if 'A' <= c <= 'Z' then (c as int + 32) as char else c
  }

  function Lower(s: string): (r: string)
    ensures |r| == |s|
    ensures forall i :: 0 <= i < |s| ==> r[i] == LowerChar(s[i])
  {
    seq(|s|, i requires 0 <= i < |s| => LowerChar(s[i]))
  }

  /** Lower-casing twice changes nothing more. */
  lemma LowerIdempotent(s: string)
    ensures Lower(Lower(s)) == Lower(s)
  {
  }

  /** Case-insensitive search: `text.lowercase().contains(s.lowercase())`. */
  function ContainsIgnoringCase(text: string, s: string): (b: bool)
    ensures b <==> ContainsSpec(Lower(text), Lower(s))
  {
    Contains(Lower(text), Lower(s))
  }

  /** The empty string occurs in every text. */
  lemma EmptyOccurs(text: string)
    ensures ContainsSpec(text, "")
  {
    assert OccursAt(text, "", 0);
  }
}
