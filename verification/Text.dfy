/** Python's whitespace handling on strings: `str.split()` and `" ".join(...)`. */
module Text {
  /** `str.isspace` for one character (also what `\s` matches in a str pattern). */
  predicate IsSpace(c: char) {
    || '\t' <= c <= '\r'
    || '\U{1C}' <= c <= ' '
    || c in {'\U{85}', '\U{A0}', '\U{1680}', '\U{2028}', '\U{2029}', '\U{202F}', '\U{205F}', '\U{3000}'}
    || '\U{2000}' <= c <= '\U{200A}'
  }

  /** A nonempty run of characters without whitespace. */
  predicate IsWord(w: string) {
    w != "" && forall i :: 0 <= i < |w| ==> !IsSpace(w[i])
  }

  /** Length of the longest prefix without whitespace. */
  function WordLength(s: string): (n: nat)
    ensures n <= |s|
    ensures forall i :: 0 <= i < n ==> !IsSpace(s[i])
    ensures n < |s| ==> IsSpace(s[n])
  {
    if s == "" || IsSpace(s[0]) then 0
    else
      var n := 1 + WordLength(s[1..]);
      assert forall i :: 1 <= i < n ==> s[i] == s[1..][i - 1];
      n
  }

  /** `s.split()`: the maximal whitespace-free runs, in order. */
  function Split(s: string): (words: seq<string>)
    ensures forall w :: w in words ==> IsWord(w)
    decreases |s|
  {
    if s == "" then []
    else if IsSpace(s[0]) then Split(s[1..])
    else
      var n := WordLength(s);
      [s[..n]] + Split(s[n..])
  }

  /** `" ".join(words)`. */
  function Join(words: seq<string>): string {
    if words == [] then ""
    else if |words| == 1 then words[0]
    else words[0] + " " + Join(words[1..])
  }

  lemma WordLengthOfPrefix(w: string, rest: string)
    requires IsWord(w)
    requires rest == "" || IsSpace(rest[0])
    ensures WordLength(w + rest) == |w|
  {
    var s := w + rest;
    assert forall i :: 0 <= i < |w| ==> s[i] == w[i];
    assert rest != "" ==> s[|w|] == rest[0];
  }

  /** Joining words and splitting the result gives the words back. */
  lemma {:induction false} SplitJoin(words: seq<string>)
    requires forall w :: w in words ==> IsWord(w)
    ensures Split(Join(words)) == words
  {
    if words == [] {
    } else if |words| == 1 {
      WordLengthOfPrefix(words[0], "");
      assert words[0] + "" == words[0];
    } else {
      var w, rest := words[0], " " + Join(words[1..]);
      assert Join(words) == w + rest;
      WordLengthOfPrefix(w, rest);
      assert (w + rest)[..|w|] == w && (w + rest)[|w|..] == rest;
      assert rest[1..] == Join(words[1..]);
      SplitJoin(words[1..]);
    }
  }

  /** A text without whitespace is one word, or none. */
  lemma OneWord(w: string)
    requires forall i :: 0 <= i < |w| ==> !IsSpace(w[i])
    ensures Split(w) == if w == "" then [] else [w]
  {
    if w != "" {
      WordLengthOfPrefix(w, "");
      assert w + "" == w && w[..|w|] == w && Split(w[|w|..]) == [];
    }
  }

  lemma SplitHead(w: string, rest: string)
    requires IsWord(w) && (rest == "" || IsSpace(rest[0]))
    ensures Split(w + rest) == [w] + Split(rest)
  {
    WordLengthOfPrefix(w, rest);
    assert (w + rest)[..|w|] == w && (w + rest)[|w|..] == rest && (w + rest)[0] == w[0];
  }

  /** Every whitespace character separates, and none of it is kept. */
  lemma {:induction false} SplitAtSpace(a: string, space: char, b: string)
    requires IsSpace(space)
    ensures Split(a + ([space] + b)) == Split(a) + Split(b)
    decreases |a|
  {
    hide IsSpace;
    var tail := [space] + b;
    if a == "" {
      assert a + tail == tail && tail[1..] == b;
    } else if IsSpace(a[0]) {
      assert (a + tail)[1..] == a[1..] + tail;
      SplitAtSpace(a[1..], space, b);
    } else {
      var w, rest := a[..WordLength(a)], a[WordLength(a)..];
      SplitAtSpace(rest, space, b);
      assert IsWord(w) && a == w + rest && a + tail == w + (rest + tail);
      SplitHead(w, rest);
      SplitHead(w, rest + tail);
      hide Split, WordLength;
      assert [w] + (Split(rest) + Split(b)) == [w] + Split(rest) + Split(b);
    }
  }

  /** The whitespace characters, by code point. */
  lemma SpaceCodes(c: char)
    ensures IsSpace(c) <==>
              (c as int) in {0x09, 0x0A, 0x0B, 0x0C, 0x0D, 0x1C, 0x1D, 0x1E, 0x1F, 0x20, 0x85, 0xA0, 0x1680, 0x2000, 0x2001,
                             0x2002, 0x2003, 0x2004, 0x2005, 0x2006, 0x2007, 0x2008, 0x2009, 0x200A, 0x2028, 0x2029, 0x202F,
                             0x205F, 0x3000}
  {
  }
}
