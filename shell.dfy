/**
 * A minimal shell-style word splitter, used as the reference reading of a
 * generated command line: words are separated by runs of spaces, and a word
 * that starts with a double quote runs up to the next double quote, which is
 * dropped with the opening one. There are no escapes.
 */
module Shell {

  /** Length of the longest prefix of `s` in which `c` does not occur. */
  function Until(s: string, c: char): (n: nat)
    decreases |s|
    ensures n <= |s|
    ensures forall i :: 0 <= i < n ==> s[i] != c
    ensures n < |s| ==> s[n] == c
  {
    if s == [] || s[0] == c then 0 else 1 + Until(s[1..], c)
  }

  /** The words a shell would see in `s`. */
  function Words(s: string): seq<string>
    decreases |s|
  {
    if s == [] then []
    else if s[0] == ' ' then Words(s[1..])
    else if s[0] == '"' then
      var n := Until(s[1..], '"');
      [s[1..1 + n]] + Words(s[if 2 + n <= |s| then 2 + n else |s|..])
    else
      var n := Until(s, ' ');
      [s[..n]] + Words(s[n..])
  }

  /** `Until` stops exactly at the end of a prefix free of `c` that is followed by `c` or by nothing. */
  lemma UntilAfter(w: string, c: char, t: string)
    requires c !in w
    requires t == [] || t[0] == c
    ensures Until(w + t, c) == |w|
  {
    var s := w + t;
    var n := Until(s, c);
    assert |w| < |s| ==> s[|w|] == c;
    assert n <= |w|;
    assert forall i :: 0 <= i < |w| ==> s[i] == w[i] && s[i] != c;
  }

  /** A leading space separates words and is otherwise ignored. */
  lemma WordsAfterSpace(t: string)
    ensures Words(" " + t) == Words(t)
  {
    assert (" " + t)[1..] == t;
  }

  /** A non-empty word with no space and no quote is read as itself. */
  lemma WordsBare(w: string, t: string)
    requires w != [] && ' ' !in w && '"' !in w
    requires t == [] || t[0] == ' '
    ensures Words(w + t) == [w] + Words(t)
  {
    var s := w + t;
    assert s[0] == w[0];
    UntilAfter(w, ' ', t);
    assert s[..|w|] == w;
    assert s[|w|..] == t;
  }

  /** A quote-free word wrapped in double quotes is read as the bare word. */
  lemma WordsQuoted(w: string, t: string)
    requires '"' !in w
    requires t == [] || t[0] == ' '
    ensures Words("\"" + w + "\"" + t) == [w] + Words(t)
  {
    var s := "\"" + w + "\"" + t;
    assert s[1..] == w + ("\"" + t);
    UntilAfter(w, '"', "\"" + t);
    assert s[1..1 + |w|] == w;
    assert s[2 + |w|..] == t;
  }
}
