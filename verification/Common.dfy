/** Result types and text helpers shared by the modules. */
module Common {
  datatype Option<+T> = None | Some(value: T)

  datatype Result<+T> = Ok(value: T) | Err

  /** How an atomic file replacement ends; it can also fail after the rename, when the directory
      sync fails. */
  datatype SaveOutcome = Saved | NotSaved | SavedThenFailed {
    predicate Wrote() { this != NotSaved }
  }

  /** The first position of a character, the length of the text if there is none. */
  function IndexOf(s: string, c: char): (i: nat)
    ensures i <= |s| && c !in s[..i] && (i < |s| ==> s[i] == c) && (i == |s| <==> c !in s)
  {
    if s == "" || s[0] == c then 0
    else
      assert s == [s[0]] + s[1..];
      var i := IndexOf(s[1..], c) + 1;
      assert s[..i] == [s[0]] + s[1..][..i - 1];
      i
  }

  lemma {:induction false} IndexAfter(prefix: string, c: char, rest: string)
    requires c !in prefix
    ensures IndexOf(prefix + [c] + rest, c) == |prefix|
  {
    if prefix != "" {
      assert prefix[0] in prefix;
      assert (prefix + [c] + rest)[1..] == prefix[1..] + [c] + rest;
      IndexAfter(prefix[1..], c, rest);
    }
  }

  predicate IsSpace(c: char) { c in " \t\n\r" || c as int == 11 || c as int == 12 }

  /** Not empty, and without white space at either end. */
  predicate Trimmed(s: string) { s != "" && !IsSpace(s[0]) && !IsSpace(s[|s| - 1]) }

  /** A UTF-8 continuation byte. */
  predicate Continuation(c: char) { 0x80 <= c as int < 0xC0 }
}
