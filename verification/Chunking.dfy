/** When the sentences do not depend on how a text is cut into chunks, and the producer that
    feeds a language model's deltas to a sentence buffer (ai-server/services/llm.py). */
module Chunking {
  import opened Audio
  import opened Text
  import opened Sentences

  /** A fresh buffer fed the chunks in turn. */
  function FeedAll(chunks: seq<string>, max: int): Extraction {
    if chunks == [] then Extraction([], "", false)
    else
      var before := FeedAll(chunks[..|chunks| - 1], max);
      var e := Fed(before.rest, chunks[|chunks| - 1], max);
      Extraction(before.pieces + e.pieces, e.rest, before.forced || e.forced)
  }

  /** Cutting `s + c` between `s` and `c` is harmless. */
  predicate Seam(s: string, c: string) {
    EndsComplete(s) && c != "" ==> IsSpace(c[0])
  }

  predicate SafelyChunked(chunks: seq<string>) {
    chunks == [] ||
    var before := chunks[..|chunks| - 1];
    SafelyChunked(before) && Seam(Joined(before), chunks[|chunks| - 1])
  }

  /** However a text is chunked, its ink ends up in the pieces and the buffer, in order. */
  lemma {:induction false} FeedAllConserves(chunks: seq<string>, max: int)
    ensures
      var e := FeedAll(chunks, max);
      && Visible(Joined(e.pieces)) + Visible(e.rest) == Visible(Joined(chunks))
      && Stripped(e.pieces)
  {
    hide Visible, Joined, Extract, Strip;
    NoPiece();
    if chunks != [] {
      var init, c := chunks[..|chunks| - 1], chunks[|chunks| - 1];
      var before := FeedAll(init, max);
      FeedAllConserves(init, max);
      assert chunks == init + [c];
      JoinedSnoc(init, c);
      if c == "" {
        assert before.pieces + [] == before.pieces && Joined(init) + "" == Joined(init);
      } else {
        ExtractConserves(before.rest + c, max);
        InkCarries(before.pieces, before.rest, Joined(init), c, Extract(before.rest + c, max));
      }
    }
  }

  /** While no feed is forced, whatever comes out is one complete sentence a piece; and a text
      below the maximum forces none. */
  lemma {:induction false} SentencesOnly(chunks: seq<string>, max: int)
    ensures |FeedAll(chunks, max).rest| <= |Joined(chunks)|
    ensures |Joined(chunks)| < max ==> !FeedAll(chunks, max).forced
    ensures !FeedAll(chunks, max).forced ==> AreSentences(FeedAll(chunks, max).pieces)
  {
    hide Extract, OneSentence;
    if chunks != [] {
      var before, c := chunks[..|chunks| - 1], chunks[|chunks| - 1];
      SentencesOnly(before, max);
      ForcedExactly(FeedAll(before, max).rest + c, max);
    }
  }

  // ---- Cutting does not see leading whitespace ----

  lemma CutShifts(w: string, u: string)
    requires Blank(w)
    ensures Search(w + u).None? <==> Search(u).None?
    ensures Search(u).Some? ==> Cut(w + u) == Cut(u)
  {
    hide Search, IsSpace, LStrip, RStrip, Blank;
    SearchSkipsBlank(w, u, 0);
    SearchShifts(w, u, 0);
    if Search(u).Some? {
      var q := Search(u).value;
      assert (w + u)[..|w| + q] == w + u[..q] && (w + u)[|w| + q..] == u[q..];
      LStripBlank(w, u[..q]);
    }
  }

  lemma CutSkipsBlank(s: string)
    ensures
      var c, d := Cut(s), Cut(LStrip(s));
      && c.pieces == d.pieces && SameFromInk(c.rest, d.rest)
      && (if Search(s).None? then c.rest == s && d.rest == LStrip(s) else c == d)
      && (Search(s).None? <==> Search(LStrip(s)).None?)
  {
    hide Search, IsSpace, LStrip, Strip, Blank;
    var n := LStripSplits(s);
    assert s == s[..n] + s[n..];
    CutShifts(s[..n], s[n..]);
    LStripOnce(s);
  }

  lemma CutSame(s: string, t: string)
    requires SameFromInk(s, t) && |s| <= |t|
    ensures
      var c, d := Cut(s), Cut(t);
      c.pieces == d.pieces && SameFromInk(c.rest, d.rest) && |c.rest| <= |d.rest|
  {
    hide Cut, Search, LStrip;
    CutSkipsBlank(s);
    CutSkipsBlank(t);
  }

  // ---- A harmless seam moves no cut ----

  lemma MatchIsStable(a: string, c: string, p: nat)
    requires Seam(a, c) && p < |a|
    ensures MatchEnd(a + c, p) == MatchEnd(a, p)
  {
    hide IsSpace;
    SpaceIsNoMark();
    assert forall i :: 0 <= i < |a| ==> (a + c)[i] == a[i];
    assert c != "" ==> (a + c)[|a|] == c[0];
  }

  lemma {:induction false} SearchIsStable(a: string, c: string, p: nat)
    requires Seam(a, c) && Search(a, p).Some?
    ensures Search(a + c, p) == Search(a, p)
    decreases |a| - p
  {
    hide MatchEnd, Seam;
    MatchIsStable(a, c, p);
    if MatchEnd(a, p).None? {
      SearchIsStable(a, c, p + 1);
    }
  }

  /** Stopping to cut what is complete in `a` before going on with `c` changes neither the
      sentences nor the tail, up to leading whitespace. */
  lemma {:induction false} CutResumes(a: string, c: string)
    requires Seam(a, c)
    ensures
      var w, e := Cut(a + c), Cut(Cut(a).rest + c);
      w.pieces == Cut(a).pieces + e.pieces && SameFromInk(w.rest, e.rest) && |w.rest| <= |e.rest|
    decreases |a|
  {
    hide LStrip, Search, Strip, IsSpace;
    if Search(a).None? {
      assert Cut(a).pieces + Cut(a + c).pieces == Cut(a + c).pieces;
    } else {
      SearchIsStable(a, c, 0);
      var cut := Search(a).value;
      var tail := a[cut..];
      var l := LStrip(tail);
      assert (a + c)[..cut] == a[..cut] && (a + c)[cut..] == tail + c;
      var n := LStripSplits(tail);
      assert Seam(l, c);
      CutResumes(l, c);
      LStripHead(tail, c);
      LStripOnce(tail + c);
      LStripShrinks(l + c);
      hide Cut;
      CutSame(LStrip(tail + c), l + c);
      Regroup(Strip(a[..cut]), Cut(l).pieces, Cut(Cut(l).rest + c).pieces);
    }
  }

  lemma Regroup<T>(x: T, a: seq<T>, b: seq<T>)
    ensures [x] + (a + b) == ([x] + a) + b
  {
  }

  // ---- Chunking independence ----

  lemma {:induction false} SafeChunks(chunks: seq<string>, max: int)
    requires SafelyChunked(chunks) && !FeedAll(chunks, max).forced
    ensures
      var w, f := Cut(Joined(chunks)), FeedAll(chunks, max);
      && w.pieces == f.pieces && SameFromInk(w.rest, f.rest) && |w.rest| <= |f.rest|
      && (Joined(chunks) == "" || |f.rest| < max)
  {
    if chunks != [] {
      var before, c := chunks[..|chunks| - 1], chunks[|chunks| - 1];
      hide LStrip, Search, Strip, IsSpace, Cut, Seam;
      SafeChunks(before, max);
      if c == "" {
        assert Joined(chunks) == Joined(before);
        assert FeedAll(chunks, max).pieces == FeedAll(before, max).pieces;
      } else {
        var a, x := Joined(before), FeedAll(before, max).rest;
        CutResumes(a, c);
        SameFromInkAppend(Cut(a).rest, x, c);
        CutSame(Cut(a).rest + c, x + c);
      }
    }
  }

  /** Where a piece ends, the text has ink and then a break. */
  lemma {:induction false} CutsEndAtBreaks(s: string, k: nat) returns (q: nat)
    requires 0 < k <= |Cut(s).pieces|
    ensures 0 < q <= |s| && !IsSpace(s[q - 1]) && AtBreak(s, q)
    ensures Visible(s[..q]) == Visible(Joined(Cut(s).pieces[..k]))
    decreases |s|
  {
    hide Visible, Joined, LStrip, Search, Strip, IsSpace;
    var cut := Search(s).value;
    var head, tail := s[..cut], s[cut..];
    MatchesEndAtBreaks(s, 0);
    VisibleStrip(head);
    var l := LStrip(tail);
    assert Cut(s).pieces[..k] == [Strip(head)] + Cut(l).pieces[..k - 1];
    JoinedCons(Strip(head), Cut(l).pieces[..k - 1]);
    NoPiece();
    if k == 1 {
      assert Cut(l).pieces[..0] == [];
      q := cut;
    } else {
      LStripShrinks(tail);
      var m := CutsEndAtBreaks(l, k - 1);
      var n := LStripSplits(tail);
      VisibleBlank(tail[..n]);
      q := cut + n + m;
      assert s[..q] == head + (tail[..n] + l[..m]);
      VisibleAppend(tail[..n], l[..m]);
      VisibleAppend(head, tail[..n] + l[..m]);
    }
  }

  /** Two prefixes that end in ink and hold the same ink are the same. */
  lemma InkFixesPrefix(s: string, m: nat, n: nat)
    requires 0 < m <= n <= |s| && !IsSpace(s[n - 1])
    requires Visible(s[..m]) == Visible(s[..n])
    ensures m == n
  {
    if m < n {
      assert s[..n] == s[..m] + s[m..n];
      VisibleBlank(s[m..n]);
      assert s[m..n][n - 1 - m] == s[n - 1];
      VisibleAppend(s[..m], s[m..n]);
    }
  }

  /** A text that ends complete is cut at its end. */
  lemma {:induction false} CompleteLeavesNothing(s: string)
    requires EndsComplete(s)
    ensures Cut(s).rest == ""
    decreases |s|
  {
    hide LStrip, Strip, IsSpace, Visible;
    SpaceIsNoMark();
    var p := if IsTerminator(s[|s| - 1]) then |s| - 1 else |s| - 2;
    FoundBy(s, 0, p);
    var cut := Search(s).value;
    MatchesEndAtBreaks(s, 0);
    var tail := s[cut..];
    var n := LStripSplits(tail);
    if cut < |s| {
      LStripShrinks(tail);
      assert tail[|tail| - 1] == s[|s| - 1] && tail[0] == s[cut];
      assert n <= p - cut;
      CompleteLeavesNothing(LStrip(tail));
    }
  }

  lemma {:induction false} FoundBy(s: string, from: nat, p: nat)
    requires from <= p < |s| && MatchEnd(s, p).Some?
    ensures Search(s, from).Some?
    decreases p - from
  {
    if MatchEnd(s, from).None? {
      FoundBy(s, from + 1, p);
    }
  }

  /** An unsafe seam ends a piece inside a stretch of ink. */
  lemma {:induction false} UnsafeSeam(chunks: seq<string>, max: int) returns (n: nat, m: nat)
    requires !SafelyChunked(chunks) && !FeedAll(chunks, max).forced
    ensures
      var t, pieces := Joined(chunks), FeedAll(chunks, max).pieces;
      && 0 < n < |t| && !IsSpace(t[n - 1]) && !IsSpace(t[n])
      && m <= |pieces| && Visible(Joined(pieces[..m])) == Visible(t[..n])
  {
    hide Visible, Joined, Cut, IsSpace, Extract;
    var before, c := chunks[..|chunks| - 1], chunks[|chunks| - 1];
    var s, t, pieces := Joined(before), Joined(chunks), FeedAll(before, max).pieces;
    assert chunks == before + [c];
    JoinedSnoc(before, c);
    if SafelyChunked(before) {
      SpaceIsNoMark();
      SafeChunks(before, max);
      CutConserves(s);
      CompleteLeavesNothing(s);
      NoPiece();
      n, m := |s|, |pieces|;
      assert Visible(Joined(pieces)) + [] == Visible(Joined(pieces));
    } else {
      n, m := UnsafeSeam(before, max);
    }
    assert t[..n] == s[..n];
    assert FeedAll(chunks, max).pieces[..m] == pieces[..m];
  }

  /** No piece of the text fed whole ends inside a stretch of ink. */
  lemma PiecesEndAtBreaks(t: string, max: int, n: nat, m: nat)
    requires 0 < n < |t| && !IsSpace(t[n - 1]) && !IsSpace(t[n])
    requires m <= |Extract(t, max).pieces|
    ensures Visible(Joined(Extract(t, max).pieces[..m])) != Visible(t[..n])
  {
    hide Visible, Joined, Cut, IsSpace, Strip;
    var e, c := Extract(t, max), Cut(t);
    VisibleBlank(t[..n]);
    VisibleBlank(t[n..]);
    assert t[..n][n - 1] == t[n - 1] && t[n..][0] == t[n];
    NoPiece();
    if m == 0 {
      assert e.pieces[..m] == [];
    } else if m <= |c.pieces| {
      var q := CutsEndAtBreaks(t, m);
      assert e.pieces[..m] == c.pieces[..m];
      if Visible(t[..q]) == Visible(t[..n]) {
        InkFixesPrefix(t, if q < n then q else n, if q < n then n else q);
      }
    } else {
      assert e.pieces[..m] == e.pieces;
      ExtractConserves(t, max);
      assert t == t[..n] + t[n..];
      VisibleAppend(t[..n], t[n..]);
    }
  }

  /** If no feed is forced, chunked feeding gives the sentences and the tail of the whole text
      exactly when every seam is harmless. */
  lemma ChunkingIndependence(chunks: seq<string>, max: int)
    requires !FeedAll(chunks, max).forced
    ensures
      var f, w := FeedAll(chunks, max), Fed("", Joined(chunks), max);
      && (f.pieces == w.pieces && SameFromInk(f.rest, w.rest) <==> SafelyChunked(chunks))
      && (SafelyChunked(chunks) ==> !w.forced && Strip(f.rest) == Strip(w.rest))
  {
    hide Visible, Joined, Cut, IsSpace, LStrip, RStrip;
    var t := Joined(chunks);
    assert "" + t == t;
    if SafelyChunked(chunks) {
      SafeChunks(chunks, max);
      EmptyCut();
    } else {
      var n, m := UnsafeSeam(chunks, max);
      if m <= |Extract(t, max).pieces| {
        PiecesEndAtBreaks(t, max, n, m);
      }
    }
  }

  lemma EmptyCut()
    ensures Cut("") == Cutting([], "")
  {
  }
}
