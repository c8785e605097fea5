/** Text helpers shared by paths, hostnames and log files. */
module Strings {

  predicate HasPrefix(s: string, prefix: string) {
    prefix <= s
  }

  predicate HasSuffix(s: string, suffix: string) {
    |suffix| <= |s| && s[|s| - |suffix|..] == suffix
  }

  /** The pieces between separators; at least one. */
  function Split(sep: char, s: string): (parts: seq<string>)
    ensures |parts| >= 1
  {
    if s == "" then [""]
    else
      var rest := Split(sep, s[1..]);
      if s[0] == sep then [""] + rest else [[s[0]] + rest[0]] + rest[1..]
  }

  lemma {:induction false} SplitPlain(sep: char, s: string)
    requires sep !in s
    ensures Split(sep, s) == [s]
  {
    if s == "" {
    } else {
      SplitPlain(sep, s[1..]);
      assert s == [s[0]] + s[1..];
    }
  }

  /** Growing the first piece commutes with adding pieces at the end. */
  lemma GrowFirst(c: char, head: seq<string>, more: seq<string>)
    requires |head| >= 1
    ensures [[c] + (head + more)[0]] + (head + more)[1..] == ([[c] + head[0]] + head[1..]) + more
  {
    assert (head + more)[1..] == head[1..] + more;
  }

  /** Splitting distributes over an explicit separator. */
  lemma {:induction false} SplitAppend(sep: char, a: string, b: string)
    ensures Split(sep, a + [sep] + b) == Split(sep, a) + Split(sep, b)
  {
    var s := a + [sep] + b;
    if a == "" {
      assert s[0] == sep && s[1..] == b;
    } else {
      assert s[0] == a[0] && s[1..] == a[1..] + [sep] + b;
      SplitAppend(sep, a[1..], b);
      if a[0] == sep {
        assert [""] + (Split(sep, a[1..]) + Split(sep, b)) == ([""] + Split(sep, a[1..])) + Split(sep, b);
      } else {
        GrowFirst(a[0], Split(sep, a[1..]), Split(sep, b));
      }
    }
  }

  /** No piece contains the separator. */
  lemma {:induction false} SplitHasNoSep(sep: char, s: string)
    ensures forall i :: 0 <= i < |Split(sep, s)| ==> sep !in Split(sep, s)[i]
  {
    if s == "" {
    } else {
      SplitHasNoSep(sep, s[1..]);
    }
  }

  /** The last piece is empty exactly when the text is or ends in a separator. */
  lemma {:induction false} LastPiece(sep: char, s: string)
    ensures var parts := Split(sep, s);
            parts[|parts| - 1] == "" <==> s == "" || s[|s| - 1] == sep
  {
    if s == "" {
    } else if |s| == 1 {
      assert s[1..] == "";
    } else {
      LastPiece(sep, s[1..]);
    }
  }
}
