/** What the whole extraction gives for a page put together from values, tags, styles and scripts. */
module HtmlPieces {
  import opened Text
  import opened HtmlText

  /** A value the template engine has escaped, a no-break blank, a tag, or an element that goes with its content. */
  datatype Piece =
    | Value(text: string)
    | NoBreak
    | Tag(tag: string)
    | Style(attributes: string, content: string)
    | Script(attributes: string, content: string)

  const STYLE := "<style"
  const END_STYLE := "</style>"
  const SCRIPT := "<script"
  const END_SCRIPT := "</script>"

  function Element(open: string, attributes: string, content: string, close: string): string {
    open + attributes + (">" + (content + close))
  }

  function Source(piece: Piece): string {
    match piece
    case Value(text) => Escape(text)
    case NoBreak => "&nbsp;"
    case Tag(tag) => tag
    case Style(attributes, content) => Element(STYLE, attributes, content, END_STYLE)
    case Script(attributes, content) => Element(SCRIPT, attributes, content, END_SCRIPT)
  }

  function Page(pieces: seq<Piece>): string {
    if pieces == [] then "" else Source(pieces[0]) + Page(pieces[1..])
  }

  function Shown(piece: Piece): string {
    match piece
    case Value(text) => text
    case NoBreak => " "
    case _ => ""
  }

  /** What a reader should see. */
  function TextOf(pieces: seq<Piece>): string {
    if pieces == [] then "" else Shown(pieces[0]) + TextOf(pieces[1..])
  }

  /** The closing tag ends the content and does not occur before. */
  predicate Closed(content: string, close: string) {
    forall i :: 0 <= i < |content| ==> !StartsWith((content + close)[i..], close)
  }

  predicate WellFormed(piece: Piece) {
    match piece
    case Value(_) => true
    case NoBreak => true
    case Tag(tag) => IsTag(tag) && '<' !in tag[1..] && !StartsWith(tag, STYLE) && !StartsWith(tag, SCRIPT)
    case Style(attributes, content) => '>' !in attributes && Closed(content, END_STYLE)
    case Script(attributes, content) =>
      && '>' !in attributes && Closed(content, END_SCRIPT)
      && forall i :: 0 <= i < |Source(piece)| ==> !StartsWith(Source(piece)[i..], STYLE)
  }

  // ---- Elements go with their content -------------------------------------------------------------

  lemma FoundFirst(s: string, pattern: string, n: nat)
    requires n < |s| && StartsWith(s[n..], pattern)
    requires forall i :: 0 <= i < n ==> !StartsWith(s[i..], pattern)
    ensures Find(s, pattern) == n
  {
    hide StartsWith, Find;
  }

  lemma ClosedBefore(content: string, close: string, tail: string)
    requires Closed(content, close) && close != ""
    ensures Find(content + (close + tail), close) == |content|
  {
    hide Find;
    var s := content + (close + tail);
    assert s[|content|..] == close + tail && (close + tail)[..|close|] == close;
    forall i | 0 <= i < |content| ensures !StartsWith(s[i..], close) {
      assert s[i..][..|close|] == (content + close)[i..][..|close|];
    }
    FoundFirst(s, close, |content|);
  }

  lemma ElementThen(open: string, attributes: string, content: string, close: string, tail: string)
    ensures Element(open, attributes, content, close) + tail == open + attributes + (">" + (content + (close + tail)))
    ensures |Element(open, attributes, content, close)| == |open| + |attributes| + 1 + |content| + |close|
  {
    var head := open + attributes;
    assert content + close + tail == content + (close + tail);
    assert ">" + (content + close) + tail == ">" + (content + close + tail);
    assert head + (">" + (content + close)) + tail == head + (">" + (content + close) + tail);
  }

  lemma ElementLength(open: string, attributes: string, content: string, close: string, tail: string)
    requires '>' !in open && '>' !in attributes && close != "" && Closed(content, close)
    ensures BlockLength(Element(open, attributes, content, close) + tail, open, close)
            == |Element(open, attributes, content, close)|
  {
    hide Find, IndexOf, Closed, Element;
    var head, rest := open + attributes, content + (close + tail);
    var s := head + (">" + rest);
    ElementThen(open, attributes, content, close, tail);
    TagEnds(head, rest);
    ClosedBefore(content, close, tail);
    assert s[..|open|] == open;
    assert s[|head| + 1..] == rest;
  }

  /** `open` starts nowhere in the chunk, whatever follows it. */
  ghost predicate Clean(chunk: string, open: string) {
    forall i, tail :: 0 <= i < |chunk| ==> !StartsWith(chunk[i..] + tail, open)
  }

  lemma {:induction false} CleanPasses(chunk: string, tail: string, open: string, close: string)
    requires Clean(chunk, open)
    ensures RemoveBlocks(chunk + tail, open, close) == chunk + RemoveBlocks(tail, open, close)
    decreases |chunk|
  {
    hide RemoveBlocks, StartsWith;
    var s := chunk + tail;
    if chunk == "" {
      assert s == tail;
    } else {
      assert chunk[0..] == chunk;
      assert BlockLength(s, open, close) == 0;
      assert s[1..] == chunk[1..] + tail;
      forall i, more | 0 <= i < |chunk[1..]| ensures !StartsWith(chunk[1..][i..] + more, open) {
        assert chunk[1..][i..] == chunk[i + 1..];
      }
      CharStays(s, open, close);
      CleanPasses(chunk[1..], tail, open, close);
    }
  }

  lemma Mismatch(s: string, open: string, k: nat)
    requires k < |s| && k < |open| && s[k] != open[k]
    ensures !StartsWith(s, open)
  {
    assert |open| <= |s| ==> s[..|open|][k] == s[k];
  }

  lemma StartsWithin(chunk: string, tail: string, open: string)
    requires |open| <= |chunk|
    ensures StartsWith(chunk + tail, open) <==> StartsWith(chunk, open)
  {
    assert (chunk + tail)[..|open|] == chunk[..|open|];
  }

  lemma NoAngleIsClean(chunk: string, open: string)
    requires '<' !in chunk && open != "" && open[0] == '<'
    ensures Clean(chunk, open)
  {
    forall i, tail | 0 <= i < |chunk| ensures !StartsWith(chunk[i..] + tail, open) {
      Mismatch(chunk[i..] + tail, open, 0);
    }
  }

  /** A tag that does not start with `open` cannot be completed to it either, since it ends with '>'. */
  lemma TagIsClean(tag: string, open: string)
    requires IsTag(tag) && '<' !in tag[1..] && !StartsWith(tag, open)
    requires open != "" && open[0] == '<' && '>' !in open
    ensures Clean(tag, open)
  {
    forall i, tail | 0 <= i < |tag| ensures !StartsWith(tag[i..] + tail, open) {
      if i > 0 {
        assert tag[i] == tag[1..][i - 1];
        Mismatch(tag[i..] + tail, open, 0);
      } else if |open| <= |tag| {
        assert tag[0..] == tag;
        StartsWithin(tag, tail, open);
      } else {
        Mismatch(tag[i..] + tail, open, |tag| - 1);
      }
    }
  }

  /** A script without "<style" in it does not start a style with what follows either. */
  lemma ScriptIsClean(piece: Piece)
    requires piece.Script? && WellFormed(piece)
    ensures Clean(Source(piece), STYLE)
  {
    var block := Source(piece);
    var before := SCRIPT + piece.attributes + (">" + piece.content);
    assert block == before + END_SCRIPT;
    hide Source;
    forall i, tail | 0 <= i < |block| ensures !StartsWith(block[i..] + tail, STYLE) {
      if i + |STYLE| <= |block| {
        StartsWithin(block[i..], tail, STYLE);
      } else {
        assert (block[i..] + tail)[0] == END_SCRIPT[i - |before|];
        Mismatch(block[i..] + tail, STYLE, 0);
      }
    }
  }

  // ---- The stages ---------------------------------------------------------------------------------

  function WithoutStyles(pieces: seq<Piece>): seq<Piece> {
    if pieces == [] then []
    else (if pieces[0].Style? then [] else [pieces[0]]) + WithoutStyles(pieces[1..])
  }

  function WithoutScripts(pieces: seq<Piece>): seq<Piece> {
    if pieces == [] then []
    else (if pieces[0].Script? then [] else [pieces[0]]) + WithoutScripts(pieces[1..])
  }

  function WithoutTags(pieces: seq<Piece>): seq<Piece> {
    if pieces == [] then []
    else (if pieces[0].Tag? then [] else [pieces[0]]) + WithoutTags(pieces[1..])
  }

  lemma PageCons(piece: Piece, pieces: seq<Piece>)
    ensures Page([piece] + pieces) == Source(piece) + Page(pieces)
    ensures TextOf([piece] + pieces) == Shown(piece) + TextOf(pieces)
  {
    hide Source, Shown;
    assert ([piece] + pieces)[1..] == pieces;
  }

  lemma PieceIsClean(piece: Piece, open: string)
    requires WellFormed(piece)
    requires (open == STYLE && !piece.Style?) || (open == SCRIPT && !piece.Style? && !piece.Script?)
    ensures Clean(Source(piece), open)
  {
    match piece
    case Value(text) =>
      EscapedHasNoAngle(text);
      NoAngleIsClean(Source(piece), open);
    case NoBreak => NoAngleIsClean(Source(piece), open);
    case Tag(tag) => TagIsClean(tag, open);
    case Script(_, _) => ScriptIsClean(piece);
  }

  lemma StyleGoes(piece: Piece, tail: string)
    requires piece.Style? && WellFormed(piece)
    ensures RemoveBlocks(Source(piece) + tail, STYLE, END_STYLE) == RemoveBlocks(tail, STYLE, END_STYLE)
    ensures Shown(piece) == ""
  {
    ElementLength(STYLE, piece.attributes, piece.content, END_STYLE, tail);
    BlockRemoved("", Source(piece), tail, STYLE, END_STYLE);
    assert "" + (Source(piece) + tail) == Source(piece) + tail;
    hide RemoveBlocks, BlockLength;
  }

  lemma OneStyleGoes(piece: Piece, rest: seq<Piece>, left: seq<Piece>)
    requires WellFormed(piece)
    requires RemoveBlocks(Page(rest), STYLE, END_STYLE) == Page(left) && TextOf(left) == TextOf(rest)
    ensures var more := if piece.Style? then left else [piece] + left;
            RemoveBlocks(Page([piece] + rest), STYLE, END_STYLE) == Page(more) && TextOf(more) == TextOf([piece] + rest)
  {
    hide RemoveBlocks, Page, TextOf, Source, Shown, Clean, WellFormed;
    PageCons(piece, rest);
    if piece.Style? {
      StyleGoes(piece, Page(rest));
      assert "" + TextOf(rest) == TextOf(rest);
    } else {
      PieceIsClean(piece, STYLE);
      CleanPasses(Source(piece), Page(rest), STYLE, END_STYLE);
      PageCons(piece, left);
    }
  }

  lemma {:induction false} StylesGo(pieces: seq<Piece>)
    requires forall p :: p in pieces ==> WellFormed(p)
    ensures RemoveBlocks(Page(pieces), STYLE, END_STYLE) == Page(WithoutStyles(pieces))
    ensures TextOf(WithoutStyles(pieces)) == TextOf(pieces)
    ensures forall p :: p in WithoutStyles(pieces) ==> p in pieces && !p.Style?
  {
    hide WellFormed;
    if pieces == [] {
    } else {
      hide RemoveBlocks, Page, TextOf;
      var piece, rest := pieces[0], pieces[1..];
      StylesGo(rest);
      OneStyleGoes(piece, rest, WithoutStyles(rest));
      assert [piece] + rest == pieces && [] + WithoutStyles(rest) == WithoutStyles(rest);
    }
  }

  lemma ScriptGoes(piece: Piece, tail: string)
    requires piece.Script? && WellFormed(piece)
    ensures RemoveBlocks(Source(piece) + tail, SCRIPT, END_SCRIPT) == RemoveBlocks(tail, SCRIPT, END_SCRIPT)
    ensures Shown(piece) == ""
  {
    ElementLength(SCRIPT, piece.attributes, piece.content, END_SCRIPT, tail);
    BlockRemoved("", Source(piece), tail, SCRIPT, END_SCRIPT);
    assert "" + (Source(piece) + tail) == Source(piece) + tail;
    hide RemoveBlocks, BlockLength;
  }

  lemma OneScriptGoes(piece: Piece, rest: seq<Piece>, left: seq<Piece>)
    requires WellFormed(piece) && !piece.Style?
    requires RemoveBlocks(Page(rest), SCRIPT, END_SCRIPT) == Page(left) && TextOf(left) == TextOf(rest)
    ensures var more := if piece.Script? then left else [piece] + left;
            RemoveBlocks(Page([piece] + rest), SCRIPT, END_SCRIPT) == Page(more) && TextOf(more) == TextOf([piece] + rest)
  {
    hide RemoveBlocks, Page, TextOf, Source, Shown, Clean, WellFormed;
    PageCons(piece, rest);
    if piece.Script? {
      ScriptGoes(piece, Page(rest));
      assert "" + TextOf(rest) == TextOf(rest);
    } else {
      PieceIsClean(piece, SCRIPT);
      CleanPasses(Source(piece), Page(rest), SCRIPT, END_SCRIPT);
      PageCons(piece, left);
    }
  }

  lemma {:induction false} ScriptsGo(pieces: seq<Piece>)
    requires forall p :: p in pieces ==> WellFormed(p) && !p.Style?
    ensures RemoveBlocks(Page(pieces), SCRIPT, END_SCRIPT) == Page(WithoutScripts(pieces))
    ensures TextOf(WithoutScripts(pieces)) == TextOf(pieces)
    ensures forall p :: p in WithoutScripts(pieces) ==> p in pieces && !p.Script?
  {
    hide WellFormed;
    if pieces == [] {
    } else {
      hide RemoveBlocks, Page, TextOf;
      var piece, rest := pieces[0], pieces[1..];
      ScriptsGo(rest);
      OneScriptGoes(piece, rest, WithoutScripts(rest));
      assert [piece] + rest == pieces && [] + WithoutScripts(rest) == WithoutScripts(rest);
    }
  }

  lemma TagGoes(tag: string, tail: string)
    requires IsTag(tag)
    ensures RemoveTags(tag + tail) == RemoveTags(tail)
  {
    var s := tag + tail;
    assert s[..|tag|] == tag && s[|tag|..] == tail;
    TagIsAhead(s, |tag|);
  }

  lemma {:induction false} NoAngleStays(chunk: string, tail: string)
    requires '<' !in chunk
    ensures RemoveTags(chunk + tail) == chunk + RemoveTags(tail)
    decreases |chunk|
  {
    if chunk == "" {
      assert chunk + tail == tail;
    } else {
      assert (chunk + tail)[1..] == chunk[1..] + tail;
      NoAngleStays(chunk[1..], tail);
    }
  }

  lemma AngleFree(piece: Piece)
    requires piece.Value? || piece.NoBreak?
    ensures '<' !in Source(piece)
  {
    if piece.Value? {
      EscapedHasNoAngle(piece.text);
    }
  }

  lemma {:induction false} TagsGo(pieces: seq<Piece>)
    requires forall p :: p in pieces ==> WellFormed(p) && !p.Style? && !p.Script?
    ensures RemoveTags(Page(pieces)) == Page(WithoutTags(pieces))
    ensures TextOf(WithoutTags(pieces)) == TextOf(pieces)
    ensures forall p :: p in WithoutTags(pieces) ==> p.Value? || p.NoBreak?
  {
    if pieces == [] {
    } else {
      var piece, rest := pieces[0], pieces[1..];
      hide RemoveTags, Page, TextOf, IsTag;
      TagsGo(rest);
      assert WellFormed(piece);
      PageCons(piece, rest);
      assert [piece] + rest == pieces;
      if piece.Tag? {
        TagGoes(piece.tag, Page(rest));
        assert WithoutTags(pieces) == WithoutTags(rest);
      } else {
        AngleFree(piece);
        NoAngleStays(Source(piece), Page(rest));
        PageCons(piece, WithoutTags(rest));
      }
    }
  }

  // ---- No-break blanks and entities -----------------------------------------------------------------

  lemma EntityPassesNoBreak(c: char)
    ensures Passes(Entity(c, 0), "&nbsp;")
  {
  }

  lemma {:induction false} ValueStays(text: string, tail: string)
    ensures Replace(Escape(text) + tail, "&nbsp;", " ") == Escape(text) + Replace(tail, "&nbsp;", " ")
    decreases |text|
  {
    hide Replace, Entity, Passes;
    if text == "" {
      assert Escape(text) + tail == tail;
    } else {
      var token, rest := Entity(text[0], 0), Escape(text[1..]);
      assert Escape(text) == token + rest;
      assert Escape(text) + tail == token + (rest + tail);
      EntityPassesNoBreak(text[0]);
      ReplacePasses(token, rest + tail, "&nbsp;", " ");
      ValueStays(text[1..], tail);
      assert token + (rest + Replace(tail, "&nbsp;", " ")) == token + rest + Replace(tail, "&nbsp;", " ");
    }
  }

  lemma {:induction false} EscapeOfSum(a: string, b: string)
    ensures Escape(a + b) == Escape(a) + Escape(b)
  {
    hide Entity;
    if a == "" {
      assert a + b == b;
    } else {
      assert (a + b)[0] == a[0] && (a + b)[1..] == a[1..] + b;
      EscapeOfSum(a[1..], b);
    }
  }

  lemma {:induction false} NoBreaksDecoded(pieces: seq<Piece>)
    requires forall p :: p in pieces ==> p.Value? || p.NoBreak?
    ensures Replace(Page(pieces), "&nbsp;", " ") == Escape(TextOf(pieces))
  {
    if pieces == [] {
    } else {
      var piece, rest := pieces[0], pieces[1..];
      NoBreaksDecoded(rest);
      hide Replace;
      if piece.Value? {
        ValueStays(piece.text, Page(rest));
        EscapeOfSum(piece.text, TextOf(rest));
      } else {
        ReplaceMatch(Page(rest), "&nbsp;", " ");
        EscapeOfSum(" ", TextOf(rest));
        assert Escape(" ") == " " + Escape("");
      }
    }
  }

  lemma DecodedAlike(s: string, t: string)
    requires Replace(s, "&nbsp;", " ") == Replace(t, "&nbsp;", " ")
    ensures Decode(s) == Decode(t)
  {
    hide Replace;
  }

  lemma PageDecoded(pieces: seq<Piece>)
    requires forall p :: p in pieces ==> p.Value? || p.NoBreak?
    ensures Decode(Page(pieces)) == QuotesAsEntities(TextOf(pieces))
  {
    var text := TextOf(pieces);
    NoBreaksDecoded(pieces);
    NoBreaksDecoded([Value(text)]);
    PageCons(Value(text), []);
    assert Page([Value(text)]) == Escape(text) && TextOf([Value(text)]) == text;
    DecodedAlike(Page(pieces), Escape(text));
    DecodeEscaped(text);
    hide Decode, Replace;
  }

  // ---- The whole extraction ---------------------------------------------------------------------------

  /** However values, no-break blanks, tags, styles and scripts follow each other: extraction gives the values in
      order, blanks for the no-break ones, with whitespace normalised and quotes as entities, and nothing else. */
  lemma ExtractPage(pieces: seq<Piece>)
    requires forall p :: p in pieces ==> WellFormed(p)
    ensures ExtractText(Page(pieces)) == Normalise(QuotesAsEntities(TextOf(pieces)))
    ensures !HasQuote(TextOf(pieces)) ==> ExtractText(Page(pieces)) == Normalise(TextOf(pieces))
  {
    hide RemoveBlocks, RemoveTags, Decode, Collapse, Strip, Normalise, Page, TextOf, WellFormed, HasQuote;
    var unstyled := WithoutStyles(pieces);
    var unscripted := WithoutScripts(unstyled);
    var bare := WithoutTags(unscripted);
    StylesGo(pieces);
    ScriptsGo(unstyled);
    TagsGo(unscripted);
    PageDecoded(bare);
    StripIsNormalise(QuotesAsEntities(TextOf(bare)));
    QuotesAddInk(TextOf(pieces));
  }

  /** After any text without '<', and whatever follows, a style or script element makes no difference at all. */
  lemma ElementsDoNotShow(before: string, piece: Piece, after: string)
    requires '<' !in before && (piece.Style? || piece.Script?) && WellFormed(piece)
    ensures ExtractText(before + (Source(piece) + after)) == ExtractText(before + after)
  {
    hide RemoveBlocks, RemoveTags, Decode, Collapse, Strip, Clean, WellFormed, Source;
    NoAngleIsClean(before, STYLE);
    NoAngleIsClean(before, SCRIPT);
    CleanPasses(before, Source(piece) + after, STYLE, END_STYLE);
    CleanPasses(before, after, STYLE, END_STYLE);
    if piece.Style? {
      StyleGoes(piece, after);
    } else {
      var rest := RemoveBlocks(after, STYLE, END_STYLE);
      ScriptIsClean(piece);
      CleanPasses(Source(piece), after, STYLE, END_STYLE);
      CleanPasses(before, Source(piece) + rest, SCRIPT, END_SCRIPT);
      CleanPasses(before, rest, SCRIPT, END_SCRIPT);
      ScriptGoes(piece, rest);
    }
  }
}
