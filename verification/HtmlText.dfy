/** Plain text from HTML: removing tags, decoding entities, normalising whitespace; and why it undoes autoescaping. */
module HtmlText {
  import opened Text

  predicate StartsWith(s: string, prefix: string) {
    |prefix| <= |s| && s[..|prefix|] == prefix
  }

  /** The first position of `c`, or the length. */
  function IndexOf(s: string, c: char): (n: nat)
    ensures n <= |s| && c !in s[..n]
    ensures n < |s| ==> s[n] == c
  {
    if s == "" || s[0] == c then 0
    else
      var n := IndexOf(s[1..], c);
      assert s[..n + 1] == [s[0]] + s[1..][..n];
      n + 1
  }

  /** The first occurrence of `pattern`, or the length. */
  function Find(s: string, pattern: string): (n: nat)
    ensures n <= |s| && (n < |s| ==> StartsWith(s[n..], pattern))
    ensures forall i :: 0 <= i < n ==> !StartsWith(s[i..], pattern)
  {
    if s == "" || StartsWith(s, pattern) then 0
    else
      var n := Find(s[1..], pattern);
      assert forall i :: 1 <= i <= n + 1 && i <= |s| ==> s[i..] == s[1..][i - 1..];
      assert s[0..] == s;
      n + 1
  }

  /** `s.replace(pattern, by)`. */
  function Replace(s: string, pattern: string, replacement: string): string
    requires pattern != ""
    decreases |s|
  {
    if s == "" then ""
    else if StartsWith(s, pattern) then replacement + Replace(s[|pattern|..], pattern, replacement)
    else [s[0]] + Replace(s[1..], pattern, replacement)
  }

  /** Where an element opened by `open` and closed by `close` ends, if one starts at the head of `s`:
      the opening tag reaches to the first '>', the content to the first `close`. 0 if there is none. */
  function BlockLength(s: string, open: string, close: string): (n: nat)
    ensures n <= |s|
  {
    if !StartsWith(s, open) then 0
    else
      var gt := IndexOf(s, '>');
      if gt == |s| then 0
      else
        var content := s[gt + 1..];
        var end := Find(content, close);
        if end + |close| <= |content| then gt + 1 + end + |close| else 0
  }

  /** `re.sub("<style[^>]*>.*?</style>", "", s)` with DOTALL, for any opening and closing text. */
  function RemoveBlocks(s: string, open: string, close: string): string
    decreases |s|
  {
    if s == "" then ""
    else
      var n := BlockLength(s, open, close);
      if n > 0 then RemoveBlocks(s[n..], open, close) else [s[0]] + RemoveBlocks(s[1..], open, close)
  }

  /** A match of `<[^>]+>` starts at the head. */
  predicate TagAhead(s: string) {
    |s| >= 2 && s[0] == '<' && s[1] != '>' && '>' in s
  }

  /** `re.sub("<[^>]+>", "", s)`. */
  function RemoveTags(s: string): string
    decreases |s|
  {
    if s == "" then ""
    else if TagAhead(s) then RemoveTags(s[IndexOf(s, '>') + 1..])
    else [s[0]] + RemoveTags(s[1..])
  }

  /** The entities in the order they are decoded: "&amp;" last. */
  function Decode(s: string): string {
    var s := Replace(s, "&nbsp;", " ");
    var s := Replace(s, "&lt;", "<");
    var s := Replace(s, "&gt;", ">");
    Replace(s, "&amp;", "&")
  }

  function SpaceLength(s: string): (n: nat)
    ensures n <= |s| && (n < |s| ==> !IsSpace(s[n]))
    ensures s != "" && IsSpace(s[0]) ==> n > 0
    ensures forall i :: 0 <= i < n ==> IsSpace(s[i])
  {
    if s == "" || !IsSpace(s[0]) then 0
    else
      var n := 1 + SpaceLength(s[1..]);
      assert forall i :: 1 <= i < n ==> s[i] == s[1..][i - 1];
      n
  }

  /** `re.sub(r"\s+", " ", s)`. */
  function Collapse(s: string): string
    decreases |s|
  {
    if s == "" then ""
    else if IsSpace(s[0]) then " " + Collapse(s[SpaceLength(s)..])
    else [s[0]] + Collapse(s[1..])
  }

  function StripLeft(s: string): string {
    if s == "" || !IsSpace(s[0]) then s else StripLeft(s[1..])
  }

  function StripRight(s: string): string {
    if s == "" || !IsSpace(s[|s| - 1]) then s else StripRight(s[..|s| - 1])
  }

  function Strip(s: string): string { StripRight(StripLeft(s)) }

  function ExtractText(html: string): string {
    var text := RemoveBlocks(html, "<style", "</style>");
    var text := RemoveBlocks(text, "<script", "</script>");
    var text := RemoveTags(text);
    var text := Decode(text);
    Strip(Collapse(text))
  }

  // ---- The matchers are those of the regular expressions -----------------------------------------

  /** All of `t` matches `<open[^>]*>.*close`. */
  ghost predicate IsBlock(t: string, open: string, close: string) {
    exists attributes, content ::
      '>' !in attributes && t == open + attributes + ">" + content + close
  }

  /** All of `t` matches `<[^>]+>`. */
  predicate IsTag(t: string) {
    |t| >= 3 && t[0] == '<' && t[|t| - 1] == '>' && '>' !in t[1..|t| - 1]
  }

  lemma BlockMatches(s: string, open: string, close: string)
    requires '>' !in open && BlockLength(s, open, close) > 0
    ensures IsBlock(s[..BlockLength(s, open, close)], open, close)
  {
    hide Find, IndexOf;
    var n, gt := BlockLength(s, open, close), IndexOf(s, '>');
    var rest := s[gt + 1..];
    var end := Find(rest, close);
    assert gt >= |open| by {
      assert s[..|open|] == open && s[gt] == '>';
    }
    var attributes, content := s[|open|..gt], rest[..end];
    assert forall c :: c in attributes ==> c in s[..gt];
    assert rest[end..end + |close|] == close;
    assert s[..n] == open + attributes + ">" + content + close;
  }

  lemma FirstIndex(s: string, c: char, n: nat)
    requires n < |s| && s[n] == c && c !in s[..n]
    ensures IndexOf(s, c) == n
  {
    hide IndexOf;
    var m := IndexOf(s, c);
    assert forall i :: 0 <= i < m ==> s[i] in s[..m];
    assert forall i :: 0 <= i < n ==> s[i] in s[..n];
  }

  lemma TagEnds(head: string, rest: string)
    requires '>' !in head
    ensures IndexOf(head + (">" + rest), '>') == |head|
  {
    var s := head + (">" + rest);
    assert s[..|head|] == head && s[|head|] == '>';
    FirstIndex(s, '>', |head|);
  }

  lemma FoundBy(content: string, close: string, tail: string)
    requires close != ""
    ensures Find(content + (close + tail), close) <= |content|
  {
    hide Find;
    var s := content + (close + tail);
    assert s[|content|..] == close + tail && (close + tail)[..|close|] == close;
    assert StartsWith(s[|content|..], close);
  }

  lemma NoLongerBlock(open: string, attributes: string, content: string, close: string, tail: string)
    requires '>' !in open && '>' !in attributes && close != ""
    ensures var s := open + attributes + (">" + (content + (close + tail)));
            0 < BlockLength(s, open, close) <= |open| + |attributes| + 1 + |content| + |close|
  {
    hide Find, IndexOf;
    var head, rest := open + attributes, content + (close + tail);
    var s := head + (">" + rest);
    TagEnds(head, rest);
    FoundBy(content, close, tail);
    assert s[..|open|] == open;
    assert s[|head| + 1..] == rest;
  }

  /** The block taken at a position is the shortest match there, as the lazy `.*?` asks for; none is taken
      exactly when nothing matches. */
  lemma ShortestBlock(s: string, open: string, close: string)
    requires '>' !in open && close != ""
    ensures var n := BlockLength(s, open, close);
            && (n > 0 ==> IsBlock(s[..n], open, close))
            && forall k :: 0 <= k <= |s| && IsBlock(s[..k], open, close) ==> 0 < n <= k
  {
    hide BlockLength;
    var n := BlockLength(s, open, close);
    if n > 0 {
      BlockMatches(s, open, close);
    }
    forall k | 0 <= k <= |s| && IsBlock(s[..k], open, close) ensures 0 < n <= k {
      var attributes, content :|
        '>' !in attributes && s[..k] == open + attributes + ">" + content + close;
      NoLongerBlock(open, attributes, content, close, s[k..]);
      assert s == s[..k] + s[k..] == open + attributes + (">" + (content + (close + s[k..])));
    }
  }

  lemma TagIsAhead(s: string, k: nat)
    requires k <= |s| && IsTag(s[..k])
    ensures TagAhead(s) && k == IndexOf(s, '>') + 1
  {
    var inner := s[..k][1..k - 1];
    assert s[0] == '<' && s[k - 1] == '>' && s[1] == inner[0];
    assert s[..k - 1] == ['<'] + inner;
    FirstIndex(s, '>', k - 1);
  }

  lemma AheadIsTag(s: string)
    requires TagAhead(s)
    ensures IndexOf(s, '>') < |s| && IsTag(s[..IndexOf(s, '>') + 1])
  {
    hide IndexOf;
    var n := IndexOf(s, '>');
    assert s[..|s|] == s;
    assert forall c :: c in s[..n + 1][1..n] ==> c in s[..n];
  }

  /** A tag is taken at a position exactly when some match starts there, and then that match. */
  lemma TagAheadMatches(s: string)
    ensures TagAhead(s) <==> exists k :: 0 <= k <= |s| && IsTag(s[..k])
    ensures forall k :: 0 <= k <= |s| && IsTag(s[..k]) ==> k == IndexOf(s, '>') + 1
  {
    hide IndexOf, IsTag, TagAhead;
    forall k | 0 <= k <= |s| && IsTag(s[..k]) ensures TagAhead(s) && k == IndexOf(s, '>') + 1 {
      TagIsAhead(s, k);
    }
    if TagAhead(s) {
      AheadIsTag(s);
    }
  }

  /** Where no block starts the character stays. */
  lemma CharStays(s: string, open: string, close: string)
    requires s != "" && BlockLength(s, open, close) == 0
    ensures RemoveBlocks(s, open, close) == [s[0]] + RemoveBlocks(s[1..], open, close)
  {
    hide BlockLength;
  }

  lemma NoBlockStarts(s: string, open: string, close: string)
    requires s != "" && open != "" && s[0] != open[0]
    ensures BlockLength(s, open, close) == 0
  {
    hide Find, IndexOf;
    assert |open| <= |s| ==> s[..|open|][0] == s[0];
  }

  /** Styles and scripts go with their content, up to the first closing tag. */
  lemma {:induction false} BlockRemoved(before: string, block: string, after: string, open: string, close: string)
    requires open != "" && open[0] == '<' && '<' !in before
    requires BlockLength(block + after, open, close) == |block| > 0
    ensures RemoveBlocks(before + (block + after), open, close) == before + RemoveBlocks(after, open, close)
    decreases |before|
  {
    hide BlockLength;
    var s := before + (block + after);
    if before == "" {
      assert s == block + after && s[|block|..] == after;
      assert RemoveBlocks(s, open, close) == RemoveBlocks(after, open, close);
    } else {
      assert s[1..] == before[1..] + (block + after);
      NoBlockStarts(s, open, close);
      CharStays(s, open, close);
      BlockRemoved(before[1..], block, after, open, close);
      hide RemoveBlocks;
    }
  }

  // ---- Whitespace: the two regular expressions amount to splitting and joining -----------------

  /** `" ".join(s.split())`. */
  function Normalise(s: string): string { Join(Split(s)) }

  lemma {:induction false} StripRightOfSum(a: string, b: string)
    ensures StripRight(a + b) == if StripRight(b) == "" then StripRight(a) else a + StripRight(b)
    decreases |b|
  {
    if b == "" {
      assert a + b == a;
    } else {
      assert (a + b)[..|a + b| - 1] == a + b[..|b| - 1];
      if IsSpace(b[|b| - 1]) {
        StripRightOfSum(a, b[..|b| - 1]);
      }
    }
  }

  lemma CollapseChar(s: string)
    requires s != "" && !IsSpace(s[0])
    ensures Collapse(s) == [s[0]] + Collapse(s[1..])
  {
    hide SpaceLength, IsSpace;
  }

  lemma {:induction false} CollapseWord(s: string, n: nat)
    requires n <= WordLength(s)
    ensures Collapse(s) == s[..n] + Collapse(s[n..])
    decreases n
  {
    hide Collapse, IsSpace;
    if n == 0 {
      assert s[0..] == s;
    } else {
      CollapseChar(s);
      CollapseWord(s[1..], n - 1);
      assert s[1..][n - 1..] == s[n..];
      assert s[..n] == [s[0]] + s[1..][..n - 1];
    }
  }

  lemma {:induction false} SplitSkipsSpace(s: string, n: nat)
    requires n <= |s| && forall i :: 0 <= i < n ==> IsSpace(s[i])
    ensures Split(s) == Split(s[n..])
    decreases n
  {
    if n == 0 {
      assert s[0..] == s;
    } else {
      SplitSkipsSpace(s[1..], n - 1);
      assert s[1..][n - 1..] == s[n..];
    }
  }

  lemma JoinEmpty(words: seq<string>)
    requires forall w :: w in words ==> IsWord(w)
    ensures Join(words) == "" <==> words == []
  {
    if words == [] {
    } else {
      assert IsWord(words[0]);
    }
  }

  lemma JoinCons(word: string, words: seq<string>)
    ensures Join([word] + words) == if words == [] then word else word + (" " + Join(words))
  {
    assert ([word] + words)[1..] == words;
    if words != [] {
      assert word + " " + Join(words) == word + (" " + Join(words));
    }
  }

  lemma SplitAtWord(s: string)
    requires s != "" && !IsSpace(s[0])
    ensures var rest := s[WordLength(s)..];
            Split(s) == [s[..WordLength(s)]] + Split(rest[SpaceLength(rest)..])
  {
    var rest := s[WordLength(s)..];
    SplitSkipsSpace(rest, SpaceLength(rest));
  }

  lemma CollapseAtWord(s: string)
    requires s != "" && !IsSpace(s[0])
    ensures var word, rest := s[..WordLength(s)], s[WordLength(s)..];
            Collapse(s) == word + if rest == "" then "" else " " + Collapse(rest[SpaceLength(rest)..])
  {
    CollapseWord(s, WordLength(s));
  }

  lemma StripAtWord(word: string, tail: string)
    requires IsWord(word)
    ensures StripRight(word) == word
    ensures StripRight(word + (" " + tail)) == if StripRight(tail) == "" then word else word + (" " + StripRight(tail))
  {
    assert StripRight(" ") == "";
    StripRightOfSum(" ", tail);
    StripRightOfSum(word, " " + tail);
  }

  /** From a word on, collapsing and stripping the end is splitting and joining. */
  /** A word and the normalised text after it, if there is any. */
  lemma WordJoins(word: string, tail: string, words: seq<string>, last: bool)
    requires IsWord(word) && forall w :: w in words ==> IsWord(w)
    requires StripRight(tail) == Join(words) && (last ==> words == [])
    ensures StripRight(word + if last then "" else " " + tail) == Join([word] + words)
  {
    hide StripRight, Join, IsWord;
    StripAtWord(word, tail);
    JoinCons(word, words);
    JoinEmpty(words);
    assert word + "" == word;
  }

  lemma {:induction false} CollapsedWords(s: string)
    requires s == "" || !IsSpace(s[0])
    ensures StripRight(Collapse(s)) == Normalise(s)
    decreases |s|
  {
    if s == "" {
    } else {
      var n := WordLength(s);
      var word, rest := s[..n], s[n..];
      var next := rest[SpaceLength(rest)..];
      assert IsWord(word);
      SplitAtWord(s);
      CollapseAtWord(s);
      CollapsedWords(next);
      assert rest == "" ==> Split(next) == [];
      hide *;
      WordJoins(word, Collapse(next), Split(next), rest == "");
    }
  }

  lemma StripIsNormalise(s: string)
    ensures Strip(Collapse(s)) == Normalise(s)
  {
    if s != "" && IsSpace(s[0]) {
      var n := SpaceLength(s);
      var rest := s[n..];
      SplitSkipsSpace(s, n);
      assert (" " + Collapse(rest))[1..] == Collapse(rest);
      assert StripLeft(Collapse(s)) == StripLeft(Collapse(rest));
      CollapsedWords(rest);
    } else {
      CollapsedWords(s);
    }
  }

  /** No whitespace at either end, only single blanks inside. */
  predicate IsNormal(s: string) {
    && (s != "" ==> !IsSpace(s[0]) && !IsSpace(s[|s| - 1]))
    && (forall i :: 0 <= i < |s| && IsSpace(s[i]) ==> s[i] == ' ' && i > 0 && !IsSpace(s[i - 1]))
  }

  lemma {:induction false} JoinIsNormal(words: seq<string>)
    requires forall w :: w in words ==> IsWord(w)
    ensures IsNormal(Join(words))
  {
    if |words| == 1 {
      assert IsWord(words[0]);
    } else if |words| > 1 {
      var w, rest := words[0], Join(words[1..]);
      assert IsWord(w);
      JoinIsNormal(words[1..]);
      JoinEmpty(words[1..]);
      var s := w + " " + rest;
      assert forall i :: 0 <= i < |w| ==> s[i] == w[i];
      assert forall i :: |w| + 1 <= i < |s| ==> s[i] == rest[i - |w| - 1];
    }
  }

  /** Whatever the input, the text has no leading, trailing or doubled whitespace. */
  lemma OutputIsNormal(html: string)
    ensures IsNormal(ExtractText(html))
  {
    var text := Decode(RemoveTags(RemoveBlocks(RemoveBlocks(html, "<style", "</style>"), "<script", "</script>")));
    StripIsNormalise(text);
    JoinIsNormal(Split(text));
  }

  // ---- Tags --------------------------------------------------------------------------------------

  predicate NoTags(s: string) {
    forall i :: 0 <= i < |s| ==> !TagAhead(s[i..])
  }

  lemma NoTagsCons(c: char, s: string)
    ensures NoTags([c] + s) <==> !TagAhead([c] + s) && NoTags(s)
  {
    var t := [c] + s;
    assert t[0..] == t;
    assert forall i :: 0 < i < |t| ==> t[i..] == s[i - 1..];
    assert forall i :: 0 <= i < |s| ==> s[i..] == t[i + 1..];
  }

  lemma {:induction false} TagsLeaveChars(s: string)
    ensures forall c :: c in RemoveTags(s) ==> c in s
    decreases |s|
  {
    if s == "" {
    } else {
      TagsLeaveChars(if TagAhead(s) then s[IndexOf(s, '>') + 1..] else s[1..]);
    }
  }

  /** After tag removal no tag is left to match, not even one put together by the removal. */
  lemma {:induction false} TagsAllRemoved(s: string)
    ensures NoTags(RemoveTags(s))
    decreases |s|
  {
    if s != "" && TagAhead(s) {
      TagsAllRemoved(s[IndexOf(s, '>') + 1..]);
    } else if s != "" {
      var rest := RemoveTags(s[1..]);
      TagsAllRemoved(s[1..]);
      TagsLeaveChars(s[1..]);
      assert s == [s[0]] + s[1..];
      if s[0] == '<' && |s| >= 2 && s[1] == '>' {
        assert rest[0] == '>';
      }
      NoTagsCons(s[0], rest);
    }
  }

  lemma {:induction false} NothingToRemove(s: string)
    requires NoTags(s)
    ensures RemoveTags(s) == s
    decreases |s|
  {
    if s == "" {
    } else {
      assert s == [s[0]] + s[1..];
      NoTagsCons(s[0], s[1..]);
      NothingToRemove(s[1..]);
    }
  }

  /** Tag removal is idempotent, and text is a fixed point exactly when it has no tag. */
  lemma RemovingTagsTwice(s: string)
    ensures RemoveTags(RemoveTags(s)) == RemoveTags(s)
    ensures RemoveTags(s) == s <==> NoTags(s)
  {
    TagsAllRemoved(s);
    NothingToRemove(RemoveTags(s));
    if NoTags(s) {
      NothingToRemove(s);
    }
  }

  // ---- Extraction undoes autoescaping --------------------------------------------------------------

  /** How a character is written once the entities up to `level` have been decoded: at level 0 as the template
      engine escapes it; then "&lt;", "&gt;" and "&amp;" are decoded in turn; quotes stay entities. */
  function Entity(c: char, level: nat): string {
    match c
    case '<' => if level < 1 then "&lt;" else "<"
    case '>' => if level < 2 then "&gt;" else ">"
    case '&' => if level < 3 then "&amp;" else "&"
    case '\'' => "&#39;"
    case '"' => "&#34;"
    case _ => [c]
  }

  function Encode(text: string, level: nat): string {
    if text == "" then "" else Entity(text[0], level) + Encode(text[1..], level)
  }

  /** Jinja's autoescape of a value. */
  function Escape(text: string): string { Encode(text, 0) }

  /** What is left of the text: quotes come out as their numeric entities. */
  function QuotesAsEntities(text: string): string { Encode(text, 3) }

  lemma {:induction false} NoAngleNoChange(s: string, open: string, close: string)
    requires '<' !in s && |open| > 0 && open[0] == '<'
    ensures RemoveBlocks(s, open, close) == s && RemoveTags(s) == s
    decreases |s|
  {
    if s == "" {
    } else {
      NoAngleNoChange(s[1..], open, close);
    }
  }

  lemma {:induction false} EscapedHasNoAngle(text: string)
    ensures '<' !in Escape(text)
  {
    if text == "" {
    } else {
      EscapedHasNoAngle(text[1..]);
    }
  }

  /** A pattern starting with '&' does not start anywhere in a run without '&'. */
  lemma {:induction false} ReplaceSkips(run: string, rest: string, pattern: string, replacement: string)
    requires pattern != "" && pattern[0] == '&' && '&' !in run
    ensures Replace(run + rest, pattern, replacement) == run + Replace(rest, pattern, replacement)
    decreases |run|
  {
    if run == "" {
      assert run + rest == rest;
    } else {
      assert (run + rest)[1..] == run[1..] + rest;
      ReplaceSkips(run[1..], rest, pattern, replacement);
    }
  }

  /** The written form of one character that the pattern cannot match. */
  predicate Passes(token: string, pattern: string) {
    && token != ""
    && '&' !in token[1..]
    && (token[0] == '&' ==> |token| >= 2 && |pattern| >= 2 && token[1] != pattern[1])
  }

  lemma ReplaceMatch(rest: string, pattern: string, replacement: string)
    requires pattern != ""
    ensures Replace(pattern + rest, pattern, replacement) == replacement + Replace(rest, pattern, replacement)
  {
    var s := pattern + rest;
    assert s[..|pattern|] == pattern && s[|pattern|..] == rest;
  }

  lemma ReplacePasses(token: string, rest: string, pattern: string, replacement: string)
    requires |pattern| >= 2 && pattern[0] == '&' && Passes(token, pattern)
    ensures Replace(token + rest, pattern, replacement) == token + Replace(rest, pattern, replacement)
  {
    var s := token + rest;
    var head, run := [token[0]], token[1..];
    assert s[1..] == run + rest;
    assert !StartsWith(s, pattern) by {
      assert s[0] == token[0] && (|token| >= 2 ==> s[1] == token[1]);
    }
    ReplaceSkips(run, rest, pattern, replacement);
    assert Replace(s, pattern, replacement) == head + Replace(run + rest, pattern, replacement);
    hide Replace, StartsWith, Passes;
    assert head + run == token;
    assert head + (run + Replace(rest, pattern, replacement)) == head + run + Replace(rest, pattern, replacement);
  }

  /** Decoding one entity takes the encoding from one level to the next. */
  lemma {:induction false} DecodeStage(text: string, from: nat, to: nat, pattern: string, replacement: string)
    requires |pattern| >= 2 && pattern[0] == '&'
    requires forall c ::
               || (Entity(c, from) == pattern && Entity(c, to) == replacement)
               || (Entity(c, from) == Entity(c, to) && Passes(Entity(c, from), pattern))
    ensures Replace(Encode(text, from), pattern, replacement) == Encode(text, to)
    decreases |text|
  {
    if text == "" {
    } else {
      var token, rest := Entity(text[0], from), Encode(text[1..], from);
      if token == pattern {
        ReplaceMatch(rest, pattern, replacement);
      } else {
        ReplacePasses(token, rest, pattern, replacement);
      }
      DecodeStage(text[1..], from, to, pattern, replacement);
    }
  }

  lemma DecodeEscaped(text: string)
    ensures Decode(Escape(text)) == QuotesAsEntities(text)
  {
    hide Replace, Encode;
    DecodeStage(text, 0, 0, "&nbsp;", " ");
    DecodeStage(text, 0, 1, "&lt;", "<");
    DecodeStage(text, 1, 2, "&gt;", ">");
    DecodeStage(text, 2, 3, "&amp;", "&");
  }

  /** Extracting an autoescaped text gives it back with whitespace normalised and quotes as entities. */
  lemma ExtractEscaped(text: string)
    ensures ExtractText(Escape(text)) == Normalise(QuotesAsEntities(text))
  {
    EscapedHasNoAngle(text);
    NoAngleNoChange(Escape(text), "<style", "</style>");
    NoAngleNoChange(Escape(text), "<script", "</script>");
    DecodeEscaped(text);
    StripIsNormalise(QuotesAsEntities(text));
  }

  // ---- Exactly the texts without quotes come back ----------------------------------------------------

  /** The number of characters that are not whitespace. */
  function Ink(s: string): nat {
    if s == "" then 0 else (if IsSpace(s[0]) then 0 else 1) + Ink(s[1..])
  }

  predicate HasQuote(text: string) { '\'' in text || '"' in text }

  lemma {:induction false} InkOfSum(a: string, b: string)
    ensures Ink(a + b) == Ink(a) + Ink(b)
  {
    if a == "" {
      assert a + b == b;
    } else {
      assert (a + b)[1..] == a[1..] + b;
      InkOfSum(a[1..], b);
    }
  }

  lemma SplitWord(s: string)
    requires s != "" && !IsSpace(s[0])
    ensures Split(s) == [s[..WordLength(s)]] + Split(s[WordLength(s)..]) && WordLength(s) > 0
  {
    hide IsSpace;
  }

  lemma InkOfSpace(s: string)
    requires s != "" && IsSpace(s[0])
    ensures Ink(s) == Ink(s[1..]) && Split(s) == Split(s[1..])
  {
    hide IsSpace;
  }

  /** A blank between two texts adds no ink. */
  lemma InkOfJoin(word: string, words: seq<string>)
    ensures Ink(Join([word] + words)) == Ink(word) + Ink(Join(words))
  {
    JoinCons(word, words);
    if words == [] {
      assert Ink(Join(words)) == 0;
    } else {
      var tail := " " + Join(words);
      assert tail[1..] == Join(words);
      InkOfSpace(tail);
      InkOfSum(word, tail);
    }
    hide Join;
  }

  lemma {:induction false} NormaliseKeepsInk(s: string)
    ensures Ink(Normalise(s)) == Ink(s)
    decreases |s|
  {
    if s == "" {
    } else if IsSpace(s[0]) {
      InkOfSpace(s);
      NormaliseKeepsInk(s[1..]);
    } else {
      hide Split, Join, Ink, IsSpace, WordLength;
      var n := WordLength(s);
      SplitWord(s);
      NormaliseKeepsInk(s[n..]);
      InkOfJoin(s[..n], Split(s[n..]));
      InkOfSum(s[..n], s[n..]);
      assert s[..n] + s[n..] == s;
    }
  }

  lemma QuoteInk(digit: char)
    requires !IsSpace(digit)
    ensures Ink(['&', '#', '3', digit, ';']) == 5
  {
    InkOfSum(['&', '#'], ['3', digit, ';']);
    InkOfSum(['3', digit], [';']);
    assert ['&', '#'] + ['3', digit, ';'] == ['&', '#', '3', digit, ';'];
    assert ['3', digit] + [';'] == ['3', digit, ';'];
  }

  lemma EntityInk(c: char)
    ensures Ink(Entity(c, 3)) >= Ink([c])
    ensures c == '\'' || c == '"' ==> Ink(Entity(c, 3)) > Ink([c])
    ensures c != '\'' && c != '"' ==> Entity(c, 3) == [c]
  {
    match c
    case '\'' => QuoteInk('9');
    case '"' => QuoteInk('4');
    case _ =>
  }

  lemma {:induction false} QuotesAddInk(text: string)
    ensures Ink(QuotesAsEntities(text)) >= Ink(text)
    ensures HasQuote(text) ==> Ink(QuotesAsEntities(text)) > Ink(text)
    ensures !HasQuote(text) ==> QuotesAsEntities(text) == text
  {
    hide Entity;
    if text == "" {
    } else {
      QuotesAddInk(text[1..]);
      EntityInk(text[0]);
      InkOfSum(Entity(text[0], 3), Encode(text[1..], 3));
      assert text == [text[0]] + text[1..];
      InkOfSum([text[0]], text[1..]);
    }
  }

  /** Extraction undoes autoescaping, up to whitespace, exactly for the texts without quote characters. */
  lemma ExtractUndoesEscape(text: string)
    ensures ExtractText(Escape(text)) == Normalise(text) <==> !HasQuote(text)
  {
    ExtractEscaped(text);
    QuotesAddInk(text);
    NormaliseKeepsInk(text);
    NormaliseKeepsInk(QuotesAsEntities(text));
  }
}
