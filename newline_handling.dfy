/** `String.appendingDashIfNeeded(previous:)`: when an edit makes a text longer
    and leaves it ending in a newline, the editor starts the next bullet with
    "- ". Characters here are Swift `Character`s. */
module NewlineHandling {

  predicate EndsWithNewline(s: string) {
    |s| > 0 && s[|s| - 1] == '\n'
  }

  function AppendingDashIfNeeded(s: string, previous: string): (r: string)
    ensures r == s + "- " <==> |s| > |previous| && EndsWithNewline(s)
    ensures !(|s| > |previous| && EndsWithNewline(s)) ==> r == s
    ensures |s| <= |r| <= |s| + 2 && r[..|s|] == s
  {
    if |s| > |previous| && EndsWithNewline(s) then s + "- " else s
  }

  /** An edit that shrinks the text or keeps its length is stored as typed. */
  lemma ShrinkingEditUnchanged(s: string, previous: string)
    requires |s| <= |previous|
    ensures AppendingDashIfNeeded(s, previous) == s
  {
  }

  /** Applying the rule twice against the same previous text is applying it
      once: an appended result ends in a space, not a newline. */
  lemma Idempotent(s: string, previous: string)
    ensures AppendingDashIfNeeded(AppendingDashIfNeeded(s, previous), previous) ==
            AppendingDashIfNeeded(s, previous)
  {
    var r := AppendingDashIfNeeded(s, previous);
    if r != s {
      assert r[|r| - 1] == ' ';
    }
  }

  /** The resolution editor's setter, which writes the same rule out inline. */
  function ResolutionSetter(newValue: string, resolution: string): (r: string)
    ensures r == AppendingDashIfNeeded(newValue, resolution)
  {
    if |newValue| > |resolution| && |newValue| > 0 && newValue[|newValue| - 1] == '\n' then
      newValue + "- "
    else
      newValue
  }
}
