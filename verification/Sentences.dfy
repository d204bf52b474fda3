/** Segmentation of streamed text into sentences (ai-server/utils/sentence_buffer.py). */
module Sentences {
  import opened Audio
  import opened Text

  predicate IsTerminator(c: char) { c == '.' || c == '!' || c == '?' }

  predicate IsCloser(c: char) { c == '"' || c == '\'' || c == ')' || c == ']' }

  /** The position is at the end of the text or before whitespace. */
  predicate AtBreak(s: string, i: nat) {
    i == |s| || (i < |s| && IsSpace(s[i]))
  }

  /** Where a match of the sentence-end pattern that begins at `p` ends: a terminator, a
      closing quote or bracket if that leads to a break, and the break. */
  function MatchEnd(s: string, p: nat): Option<nat>
    requires p < |s|
  {
    if !IsTerminator(s[p]) then None
    else if p + 1 < |s| && IsCloser(s[p + 1]) && AtBreak(s, p + 2) then Some(p + 2)
    else if AtBreak(s, p + 1) then Some(p + 1)
    else None
  }

  /** The end of the leftmost match at or after `p`. */
  function Search(s: string, p: nat := 0): (r: Option<nat>)
    ensures r.Some? ==> p < r.value <= |s|
    decreases |s| - p
  {
    if p >= |s| then None
    else if MatchEnd(s, p).Some? then MatchEnd(s, p)
    else Search(s, p + 1)
  }

  /** `Search` finds the leftmost match, and fails only if there is none. */
  lemma {:induction false} SearchIsLeftmost(s: string, p: nat)
    ensures match Search(s, p)
            case None => forall i :: p <= i < |s| ==> MatchEnd(s, i).None?
            case Some(q) => exists i :: p <= i < |s| && MatchEnd(s, i) == Some(q) && forall j :: p <= j < i ==> MatchEnd(s, j).None?
    decreases |s| - p
  {
    hide MatchEnd;
    if p < |s| && MatchEnd(s, p).None? {
      SearchIsLeftmost(s, p + 1);
    }
  }

  /** The text ends in a terminator, possibly with its closing quote or bracket. */
  predicate EndsComplete(s: string) {
    && s != ""
    && var last := s[|s| - 1];
    || IsTerminator(last)
    || (|s| >= 2 && IsCloser(last) && IsTerminator(s[|s| - 2]))
  }

  /** The first sentence end in the text is its own end. */
  predicate OneSentence(s: string) {
    EndsComplete(s) && Search(s) == Some(|s|)
  }

  ghost predicate AreSentences(pieces: seq<string>) {
    forall i :: 0 <= i < |pieces| ==> OneSentence(pieces[i])
  }

  /** The sentences cut off a buffer, trimmed, and the buffer they leave. */
  datatype Cutting = Cutting(pieces: seq<string>, rest: string)

  function Cut(buf: string): Cutting
    decreases |buf|
  {
    match Search(buf)
    case None => Cutting([], buf)
    case Some(cut) =>
      LStripShrinks(buf[cut..]);
      var more := Cut(LStrip(buf[cut..]));
      more.(pieces := [Strip(buf[..cut])] + more.pieces)
  }

  /** What one extraction cuts off, what it leaves, and whether it gave up waiting for a
      terminator. */
  datatype Extraction = Extraction(pieces: seq<string>, rest: string, forced: bool)

  function Extract(buf: string, max: int): Extraction {
    var c := Cut(buf);
    if |c.rest| >= max then Extraction(c.pieces + [Strip(c.rest)], "", true)
    else Extraction(c.pieces, c.rest, false)
  }

  /** One feed: an empty chunk does not start an extraction. */
  function Fed(buf: string, chunk: string, max: int): Extraction {
    if chunk == "" then Extraction([], buf, false) else Extract(buf + chunk, max)
  }

  lemma LStripShrinks(s: string)
    ensures |LStrip(s)| <= |s|
  {
    var n := LStripSplits(s);
  }

  /** The pieces long enough to emit. */
  function Kept(pieces: seq<string>, min: int): seq<string> {
    if pieces == [] then []
    else Kept(pieces[..|pieces| - 1], min) + (if |pieces[|pieces| - 1]| >= min then [pieces[|pieces| - 1]] else [])
  }

  /** The pieces, or chunks, put together. */
  function Joined(pieces: seq<string>): string {
    if pieces == [] then "" else Joined(pieces[..|pieces| - 1]) + pieces[|pieces| - 1]
  }

  predicate Stripped(pieces: seq<string>) {
    forall p :: p in pieces ==> Strip(p) == p
  }

  /** Cutting keeps all ink, in order, and stops only where no complete sentence is left. */
  lemma {:induction false} CutConserves(buf: string)
    ensures
      var c := Cut(buf);
      && Visible(Joined(c.pieces)) + Visible(c.rest) == Visible(buf)
      && Stripped(c.pieces)
      && Search(c.rest).None?
    decreases |buf|
  {
    hide Visible, Strip, LStrip, Search, Joined;
    var cut := Search(buf);
    if cut.None? {
      NoPiece();
    } else {
      var head, tail := buf[..cut.value], buf[cut.value..];
      LStripShrinks(tail);
      CutConserves(LStrip(tail));
      StripIsStripped(head);
      assert buf == head + tail;
      VisibleAppend(head, tail);
      VisibleStrip(head);
      VisibleLStrip(tail);
      JoinedCons(Strip(head), Cut(LStrip(tail)).pieces);
    }
  }

  lemma ExtractConserves(buf: string, max: int)
    ensures
      var e := Extract(buf, max);
      && Visible(Joined(e.pieces)) + Visible(e.rest) == Visible(buf)
      && Stripped(e.pieces)
      && Search(e.rest).None? && (|e.rest| < max || e.rest == "")
  {
    hide Visible, Strip, Search, Joined, Cut;
    var c := Cut(buf);
    CutConserves(buf);
    StripIsStripped(c.rest);
    VisibleStrip(c.rest);
    SinglePiece(Strip(c.rest));
    JoinedAppend(c.pieces, [Strip(c.rest)]);
    NoPiece();
  }

  // ---- What is cut off ----

  lemma {:induction false} SearchSkipsBlank(w: string, u: string, p: nat)
    requires Blank(w) && p <= |w|
    ensures Search(w + u, p) == Search(w + u, |w|)
    decreases |w| - p
  {
    if p < |w| {
      assert (w + u)[p] == w[p];
      SearchSkipsBlank(w, u, p + 1);
    }
  }

  lemma {:induction false} SearchShifts(w: string, u: string, p: nat)
    requires p <= |u|
    ensures Search(w + u, |w| + p) == (if Search(u, p).None? then None else Some(|w| + Search(u, p).value))
    decreases |u| - p
  {
    if p < |u| {
      assert forall i :: 0 <= i < |u| ==> (w + u)[|w| + i] == u[i];
      SearchShifts(w, u, p + 1);
    }
  }

  lemma SpaceIsNoMark()
    ensures forall c :: IsSpace(c) ==> !IsTerminator(c) && !IsCloser(c)
  {
  }

  /** A match ends in ink that completes a sentence, before a break. */
  lemma {:induction false} MatchesEndAtBreaks(s: string, p: nat)
    requires Search(s, p).Some?
    ensures
      var q := Search(s, p).value;
      && q > p && !IsSpace(s[q - 1]) && AtBreak(s, q)
      && (IsTerminator(s[q - 1]) || (q >= p + 2 && IsCloser(s[q - 1]) && IsTerminator(s[q - 2])))
    decreases |s| - p
  {
    SpaceIsNoMark();
    if MatchEnd(s, p).None? {
      MatchesEndAtBreaks(s, p + 1);
    }
  }

  /** Cutting a text at its first match leaves that the first match. */
  lemma {:induction false} SearchTruncated(s: string, p: nat)
    requires Search(s, p).Some?
    ensures var q := Search(s, p).value; Search(s[..q], p) == Some(q)
    decreases |s| - p
  {
    hide IsSpace;
    var q := Search(s, p).value;
    var head := s[..q];
    if MatchEnd(s, p).None? {
      SearchTruncated(s, p + 1);
      MatchesEndAtBreaks(s, p + 1);
      assert forall i :: 0 <= i < q ==> head[i] == s[i];
    }
  }

  lemma LastOfBlank(s: string)
    requires Blank(s) && s != ""
    ensures IsSpace(s[|s| - 1])
  {
  }

  /** A text that ends in ink loses nothing but leading whitespace. */
  lemma StripsLeading(head: string) returns (n: nat)
    requires head != "" && !IsSpace(head[|head| - 1])
    ensures n < |head| && Blank(head[..n]) && Strip(head) == head[n..]
  {
    hide IsSpace, Blank;
    n := LStripSplits(head);
    if n == |head| {
      assert head[..n] == head;
      LastOfBlank(head);
    }
    var u := head[n..];
    var m := RStripSplits(u);
    var gone := u[m..];
    if gone != [] {
      LastOfBlank(gone);
    }
  }

  lemma FirstIsOneSentence(buf: string)
    requires Search(buf).Some?
    ensures OneSentence(Strip(buf[..Search(buf).value]))
  {
    hide Search, IsSpace, MatchEnd, Strip, Blank;
    var cut := Search(buf).value;
    var head := buf[..cut];
    MatchesEndAtBreaks(buf, 0);
    SearchTruncated(buf, 0);
    var n := StripsLeading(head);
    var u := head[n..];
    assert head == head[..n] + u;
    SearchSkipsBlank(head[..n], u, 0);
    SearchShifts(head[..n], u, 0);
    MatchesEndAtBreaks(u, 0);
  }

  /** Each piece is exactly one sentence, and cutting makes nothing longer. */
  lemma {:induction false} CutsSentences(buf: string)
    ensures AreSentences(Cut(buf).pieces) && |Cut(buf).rest| <= |buf|
    decreases |buf|
  {
    hide Search, Strip, LStrip, OneSentence;
    var cut := Search(buf);
    if cut.Some? {
      FirstIsOneSentence(buf);
      LStripShrinks(buf[cut.value..]);
      CutsSentences(LStrip(buf[cut.value..]));
    }
  }

  /** An extraction is forced exactly if what is left after cutting reaches the maximum. Every
      piece is then one complete sentence but for the last, and otherwise every one is. */
  lemma ForcedExactly(buf: string, max: int)
    ensures
      var e, rest := Extract(buf, max), Cut(buf).rest;
      && (e.forced <==> |rest| >= max) && (|buf| < max ==> !e.forced)
      && AreSentences(if e.forced then e.pieces[..|e.pieces| - 1] else e.pieces)
      && (if e.forced then e.pieces[|e.pieces| - 1] == Strip(rest) && e.rest == "" else e.rest == rest)
      && |e.rest| <= |buf|
  {
    hide Cut, OneSentence, Strip;
    CutsSentences(buf);
  }

  // ---- Ink ----

  lemma JoinedSnoc(pieces: seq<string>, piece: string)
    ensures Joined(pieces + [piece]) == Joined(pieces) + piece
  {
    assert (pieces + [piece])[..|pieces|] == pieces;
  }

  lemma SinglePiece(piece: string)
    ensures Joined([piece]) == piece
  {
    assert [piece][..0] == [];
  }

  lemma NoPiece()
    ensures Joined([]) == "" && Visible("") == "" && Search("").None?
  {
  }

  lemma {:induction false} JoinedCons(piece: string, pieces: seq<string>)
    ensures Visible(Joined([piece] + pieces)) == Visible(piece) + Visible(Joined(pieces))
  {
    if pieces == [] {
      assert [piece] + pieces == [piece];
      SinglePiece(piece);
    } else {
      var all, last := [piece] + pieces, pieces[|pieces| - 1];
      assert all[..|all| - 1] == [piece] + pieces[..|pieces| - 1];
      JoinedCons(piece, pieces[..|pieces| - 1]);
      VisibleAppend(Joined(all[..|all| - 1]), last);
      VisibleAppend(Joined(pieces[..|pieces| - 1]), last);
    }
  }

  lemma {:induction false} JoinedAppend(a: seq<string>, b: seq<string>)
    ensures Visible(Joined(a + b)) == Visible(Joined(a)) + Visible(Joined(b))
  {
    if b == [] {
      assert a + b == a;
    } else {
      var last := b[|b| - 1];
      assert (a + b)[..|a + b| - 1] == a + b[..|b| - 1];
      JoinedAppend(a, b[..|b| - 1]);
      VisibleAppend(Joined(a + b[..|b| - 1]), last);
      VisibleAppend(Joined(b[..|b| - 1]), last);
    }
  }

  lemma {:induction false} KeptAppend(a: seq<string>, b: seq<string>, min: int)
    ensures Kept(a + b, min) == Kept(a, min) + Kept(b, min)
  {
    if b == [] {
      assert a + b == a;
    } else {
      assert (a + b)[..|a + b| - 1] == a + b[..|b| - 1];
      KeptAppend(a, b[..|b| - 1], min);
    }
  }

  lemma {:induction false} KeptAreSentences(pieces: seq<string>, min: int)
    ensures AreSentences(pieces) ==> AreSentences(Kept(pieces, min))
  {
    hide OneSentence;
    if pieces != [] {
      KeptAreSentences(pieces[..|pieces| - 1], min);
    }
  }

  lemma NothingKept(min: int)
    ensures Kept([], min) == []
  {
  }

  lemma SingleKept(piece: string, min: int)
    ensures Kept([piece], min) == if |piece| >= min then [piece] else []
  {
    assert [piece][..0] == [];
  }

  lemma StripIsStripped(s: string)
    ensures Strip(Strip(s)) == Strip(s)
  {
    StripTrims(s);
  }

  /** Feeding and extracting keep the ink of pieces and buffer equal to that of the input. */
  lemma InkCarries(pieces: seq<string>, buf: string, fed: string, chunk: string, e: Extraction)
    requires Visible(Joined(pieces)) + Visible(buf) == Visible(fed)
    requires Visible(Joined(e.pieces)) + Visible(e.rest) == Visible(buf + chunk)
    ensures Visible(Joined(pieces + e.pieces)) + Visible(e.rest) == Visible(fed + chunk)
  {
    hide Visible, Joined;
    VisibleAppend(buf, chunk);
    VisibleAppend(fed, chunk);
    JoinedAppend(pieces, e.pieces);
    Carry(Visible(Joined(pieces)), Visible(buf), Visible(fed), Visible(chunk), Visible(Joined(e.pieces)), Visible(e.rest));
  }

  lemma Carry(p: string, b: string, f: string, c: string, q: string, r: string)
    requires p + b == f && q + r == b + c
    ensures (p + q) + r == f + c
  {
    assert (p + q) + r == p + (q + r);
    assert p + (b + c) == (p + b) + c;
  }

  class SentenceBuffer {
    const maxBufferChars: int
    const minFragmentChars: int
    var buf: string
    /** All text fed, every piece cut off it, and what was emitted. */
    ghost var fed: string
    ghost var pieces: seq<string>
    ghost var emitted: seq<string>

    ghost predicate Valid()
      reads this
    {
      // Conservation: the ink of the pieces and the buffer is the ink of the input.
      && Visible(Joined(pieces)) + Visible(buf) == Visible(fed)
      && emitted == Kept(pieces, minFragmentChars)
      && Stripped(pieces)
      // The buffer never holds a complete sentence, nor reaches the maximum.
      && Search(buf).None?
      && (|buf| < maxBufferChars || buf == "")
    }

    constructor (maxBufferChars: int := 240, minFragmentChars: int := 2)
      ensures Valid() && fed == "" && pieces == [] && buf == ""
      ensures this.maxBufferChars == maxBufferChars && this.minFragmentChars == minFragmentChars
    {
      this.maxBufferChars, this.minFragmentChars := maxBufferChars, minFragmentChars;
      buf, fed, pieces, emitted := "", "", [], [];
    }

    method Feed(chunk: string) returns (out: seq<string>)
      requires Valid()
      modifies this
      ensures Valid()
      ensures fed == old(fed) + chunk && emitted == old(emitted) + out
      ensures
        var e := Fed(old(buf), chunk, maxBufferChars);
        pieces == old(pieces) + e.pieces && buf == e.rest && out == Kept(e.pieces, minFragmentChars)
      ensures |old(buf)| + |chunk| < maxBufferChars ==> AreSentences(out)
    {
      hide Visible, Joined, Kept, Extract, Search, Strip, OneSentence;
      if chunk == "" {
        NothingKept(minFragmentChars);
        assert fed + chunk == fed && pieces + [] == pieces && emitted + [] == emitted;
        return [];
      }
      buf := buf + chunk;
      ghost var e := Extract(buf, maxBufferChars);
      ExtractConserves(buf, maxBufferChars);
      InkCarries(pieces, old(buf), fed, chunk, e);
      KeptAppend(pieces, e.pieces, minFragmentChars);
      ForcedExactly(buf, maxBufferChars);
      KeptAreSentences(e.pieces, minFragmentChars);
      out := ExtractSentences();
      fed, pieces, emitted := fed + chunk, pieces + e.pieces, emitted + out;
    }

    /** Each round either ends the loop or shortens the buffer. */
    method ExtractSentences() returns (out: seq<string>)
      modifies this`buf
      ensures
        var e := Extract(old(buf), maxBufferChars);
        buf == e.rest && out == Kept(e.pieces, minFragmentChars)
      ensures |Cut(old(buf)).rest| < maxBufferChars ==> buf == Cut(old(buf)).rest && AreSentences(out)
    {
      CutsSentences(buf);
      KeptAreSentences(Cut(buf).pieces, minFragmentChars);
      hide Kept, Search, Strip, LStrip, AreSentences;
      out := [];
      NothingKept(minFragmentChars);
      ghost var c := Cut(buf);
      ghost var cuts: seq<string> := [];
      while true
        invariant out == Kept(cuts, minFragmentChars)
        invariant
          c.pieces == cuts + Cut(buf).pieces && c.rest == Cut(buf).rest
        decreases |buf|
      {
        var cut := Search(buf);
        if cut.None? {
          assert c == Cutting(cuts, buf);
          if |buf| >= maxBufferChars {
            var text := Strip(buf);
            buf := "";
            KeptAppend(cuts, [text], minFragmentChars);
            SingleKept(text, minFragmentChars);
            cuts := cuts + [text];
            if |text| >= minFragmentChars {
              out := out + [text];
            }
          }
          break;
        }
        var sentence := Strip(buf[..cut.value]);
        LStripShrinks(buf[cut.value..]);
        buf := LStrip(buf[cut.value..]);
        KeptAppend(cuts, [sentence], minFragmentChars);
        SingleKept(sentence, minFragmentChars);
        cuts := cuts + [sentence];
        if |sentence| >= minFragmentChars {
          out := out + [sentence];
        }
      }
    }

    /** The tail of the text, if it is long enough; the buffer is left empty. */
    method Flush() returns (tail: string)
      requires Valid()
      modifies this
      ensures Valid() && buf == "" && fed == old(fed)
      ensures pieces == old(pieces) + [Strip(old(buf))]
      ensures tail == if |Strip(old(buf))| >= minFragmentChars then Strip(old(buf)) else ""
    {
      hide Visible, Joined, Kept, Extract, Search, Strip;
      var rest := Strip(buf);
      VisibleStrip(buf);
      StripIsStripped(buf);
      JoinedAppend(pieces, [rest]);
      SinglePiece(rest);
      NoPiece();
      pieces := pieces + [rest];
      emitted := Kept(pieces, minFragmentChars);
      buf := "";
      tail := if |rest| >= minFragmentChars then rest else "";
    }
  }
}
