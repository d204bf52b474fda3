/** From the deltas of a language model to the audio deliveries of one turn
    (ai-server/services/llm.py and ai-server/agents/response_generator.py). */
module Response {
  import opened Audio
  import opened Text
  import opened Sentences
  import opened Chunking
  import D = Delivery

  const MAX_BUFFER_CHARS := 240
  const MIN_FRAGMENT_CHARS := 2

  // ---- The producer: deltas to sentences ----

  /** The sentences a stream of deltas yields. A stream that fails is not flushed. */
  function Streamed(deltas: seq<string>, fails: bool): seq<string> {
    var e := FeedAll(deltas, MAX_BUFFER_CHARS);
    var tail := Strip(e.rest);
    Kept(e.pieces, MIN_FRAGMENT_CHARS) + (if fails || |tail| < MIN_FRAGMENT_CHARS then [] else [tail])
  }

  method Produce(deltas: seq<string>, fails: bool) returns (sent: seq<string>)
    ensures sent == Streamed(deltas, fails)
  {
    hide Kept, Fed, Strip, Search, Visible, Joined;
    var buffer := new SentenceBuffer(MAX_BUFFER_CHARS, MIN_FRAGMENT_CHARS);
    sent := [];
    NothingKept(MIN_FRAGMENT_CHARS);
    var i := 0;
    while i < |deltas|
      invariant i <= |deltas| && buffer.Valid() && fresh(buffer)
      invariant buffer.maxBufferChars == MAX_BUFFER_CHARS && buffer.minFragmentChars == MIN_FRAGMENT_CHARS
      invariant
        var e := FeedAll(deltas[..i], MAX_BUFFER_CHARS);
        buffer.buf == e.rest && sent == Kept(e.pieces, MIN_FRAGMENT_CHARS)
    {
      ghost var before := FeedAll(deltas[..i], MAX_BUFFER_CHARS);
      assert deltas[..i + 1][..i] == deltas[..i];
      FedNothing(before.rest);
      KeptAppend(before.pieces, Fed(before.rest, deltas[i], MAX_BUFFER_CHARS).pieces, MIN_FRAGMENT_CHARS);
      NothingKept(MIN_FRAGMENT_CHARS);
      if deltas[i] != "" {
        var sentences := buffer.Feed(deltas[i]);
        sent := sent + sentences;
      }
      i := i + 1;
    }
    assert deltas[..i] == deltas;
    if !fails {
      var tail := buffer.Flush();
      if tail != "" {
        sent := sent + [tail];
      }
    }
  }

  lemma FedNothing(rest: string)
    ensures Fed(rest, "", MAX_BUFFER_CHARS) == Extraction([], rest, false)
  {
  }

  /** No sentence the stream yields is blank. */
  lemma StreamedHasInk(deltas: seq<string>, fails: bool, s: string)
    requires s in Streamed(deltas, fails)
    ensures !Blank(s) && Strip(s) == s
  {
    hide FeedAll, Strip, Blank;
    var e := FeedAll(deltas, MAX_BUFFER_CHARS);
    FeedAllConserves(deltas, MAX_BUFFER_CHARS);
    KeptAre(e.pieces, MIN_FRAGMENT_CHARS);
    StripIsStripped(e.rest);
    StrippedHasInk(s);
  }

  /** What a stream that does not fail leaves unsaid are pieces of at most one character: cut into
      `pieces`, all ink of the deltas is there, and the longer pieces are what is sent. */
  lemma OnlyFragmentsAreDropped(deltas: seq<string>) returns (pieces: seq<string>)
    ensures Visible(Joined(pieces)) == Visible(Joined(deltas))
    ensures Streamed(deltas, false) == Kept(pieces, MIN_FRAGMENT_CHARS)
  {
    hide FeedAll, Visible, Joined, Strip, Kept;
    var e := FeedAll(deltas, MAX_BUFFER_CHARS);
    var tail := Strip(e.rest);
    pieces := e.pieces + [tail];
    FeedAllConserves(deltas, MAX_BUFFER_CHARS);
    VisibleStrip(e.rest);
    SinglePiece(tail);
    JoinedAppend(e.pieces, [tail]);
    KeptAppend(e.pieces, [tail], MIN_FRAGMENT_CHARS);
    SingleKept(tail, MIN_FRAGMENT_CHARS);
  }

  lemma StrippedHasInk(s: string)
    requires Strip(s) == s && s != ""
    ensures !Blank(s)
  {
    StripTrims(s);
  }

  /** `Kept` selects: what it keeps is long enough and was there. */
  lemma {:induction false} KeptAre(pieces: seq<string>, min: int)
    ensures forall s :: s in Kept(pieces, min) ==> s in pieces && |s| >= min
  {
    if pieces != [] {
      KeptAre(pieces[..|pieces| - 1], min);
    }
  }

  // ---- The turn: sentences to delivery attempts ----

  /** One attempt to synthesise a text and hand it to the delivery callback. */
  datatype Attempt = Attempt(text: string, isFinal: bool)

  datatype Turn = Turn(
    actionHandled: bool, actionText: string,
    llmReady: bool, needsAudio: bool, hasDelivery: bool, ttsReady: bool,
    /** The visual answer or else description, empty if there is none. */
    visualText: string,
    confidence: real)

  predicate CanStream(t: Turn) {
    t.llmReady && t.needsAudio && t.hasDelivery && t.ttsReady && t.visualText == "" && !t.actionHandled && t.confidence >= 0.3
  }

  /** Every sentence once, in order, the last one final. */
  function Lookahead(sentences: seq<string>): seq<Attempt> {
    seq(|sentences|, i requires 0 <= i < |sentences| => Attempt(sentences[i], i == |sentences| - 1))
  }

  /** `" ".join`. */
  function Spaced(sentences: seq<string>): string {
    if sentences == [] then ""
    else if |sentences| == 1 then sentences[0]
    else Spaced(sentences[..|sentences| - 1]) + " " + sentences[|sentences| - 1]
  }

  /** The text of the streaming path, empty if the path is not taken or yields none. */
  function StreamText(t: Turn, sentences: seq<string>): string {
    if CanStream(t) then Strip(Spaced(sentences)) else ""
  }

  function Reply(t: Turn, sentences: seq<string>, generated: string): string {
    if t.actionHandled then t.actionText
    else if StreamText(t, sentences) != "" then StreamText(t, sentences)
    else generated
  }

  /** The attempts of a turn in which the model streams `sentences` and the non-streaming
      generator would answer `generated`. */
  function Attempts(t: Turn, sentences: seq<string>, generated: string): seq<Attempt> {
    (if CanStream(t) then Lookahead(sentences) else []) +
    (if StreamText(t, sentences) == "" && t.needsAudio && t.ttsReady && t.hasDelivery
     then [Attempt(Reply(t, sentences, generated), true)] else [])
  }

  /** The callback invocations: attempts whose synthesis, by their number, gives audio. */
  function Calls(synthesize: nat -> Option<D.AudioData>, attempts: seq<Attempt>): seq<D.Call> {
    if attempts == [] then []
    else
      var n := |attempts| - 1;
      Calls(synthesize, attempts[..n]) +
      (if synthesize(n).Some? then [D.Call(synthesize(n), attempts[n].isFinal)] else [])
  }

  class ResponseGenerator {
    /** What synthesis gives for the n-th attempt; nothing if it raises. */
    const synthesize: nat -> Option<D.AudioData>
    ghost var attempts: seq<Attempt>
    /** What the delivery callback was called with. */
    var calls: seq<D.Call>
    var count: nat

    ghost predicate Valid()
      reads this
    {
      calls == Calls(synthesize, attempts) && count == |attempts|
    }

    constructor (synthesize: nat -> Option<D.AudioData>)
      ensures Valid() && attempts == [] && this.synthesize == synthesize
    {
      this.synthesize, attempts, calls, count := synthesize, [], [], 0;
    }

    /** A failure to synthesise is logged, not raised. */
    method Deliver(sentence: string, isFinal: bool)
      requires Valid()
      modifies this
      ensures Valid() && attempts == old(attempts) + [Attempt(sentence, isFinal)]
    {
      var audio := synthesize(count);
      ghost var now := attempts + [Attempt(sentence, isFinal)];
      assert now[..|attempts|] == attempts;
      if audio.Some? {
        calls := calls + [D.Call(audio, isFinal)];
      }
      attempts, count := now, count + 1;
    }

    method StreamResponseToAudio(stream: seq<string>) returns (text: string)
      requires Valid()
      modifies this
      ensures Valid() && attempts == old(attempts) + Lookahead(stream)
      ensures text == Strip(Spaced(stream))
    {
      hide Calls, Spaced, Strip;
      var sentences: seq<string>, pending: Option<string> := [], None;
      while |sentences| < |stream|
        invariant Valid() && |sentences| <= |stream| && sentences == stream[..|sentences|]
        invariant pending == if sentences == [] then None else Some(sentences[|sentences| - 1])
        invariant |attempts| == |old(attempts)| + (if sentences == [] then 0 else |sentences| - 1)
        invariant attempts[..|old(attempts)|] == old(attempts)
        invariant forall i :: |old(attempts)| <= i < |attempts| ==> attempts[i] == Attempt(stream[i - |old(attempts)|], false)
      {
        var sentence := stream[|sentences|];
        sentences := sentences + [sentence];
        if pending.Some? {
          Deliver(pending.value, false);
        }
        pending := Some(sentence);
      }
      if pending.Some? {
        Deliver(pending.value, true);
      }
      assert sentences == stream;
      assert attempts == old(attempts) + Lookahead(stream);
      text := Strip(Spaced(sentences));
    }

    method Process(t: Turn, stream: seq<string>, generated: string) returns (response: string, streamed: bool)
      requires Valid()
      modifies this
      ensures Valid() && attempts == old(attempts) + Attempts(t, stream, generated)
      ensures response == Reply(t, stream, generated)
      ensures streamed <==> StreamText(t, stream) != ""
    {
      hide Calls, Spaced, Strip, Lookahead;
      response, streamed := "", false;
      if t.actionHandled {
        response := t.actionText;
      } else if CanStream(t) {
        response := StreamResponseToAudio(stream);
        streamed := response != "";
      }
      if response == "" && !t.actionHandled {
        response := generated;
      }
      if !streamed && t.needsAudio && t.ttsReady {
        if t.hasDelivery {
          Deliver(response, true);
        }
      }
    }
  }

  // ---- One final delivery, and it is the last ----

  predicate OneFinal(attempts: seq<Attempt>) {
    forall i :: 0 <= i < |attempts| ==> (attempts[i].isFinal <==> i == |attempts| - 1)
  }

  predicate AllBlank(sentences: seq<string>) {
    forall s :: s in sentences ==> Blank(s)
  }

  lemma {:induction false} SpacedInk(sentences: seq<string>)
    ensures Visible(Spaced(sentences)) == Visible(Joined(sentences))
  {
    hide Visible, IsSpace;
    if |sentences| == 1 {
      assert sentences == [sentences[0]];
      SinglePiece(sentences[0]);
    } else if sentences != [] {
      var before, last := sentences[..|sentences| - 1], sentences[|sentences| - 1];
      SpacedInk(before);
      VisibleAppend(Spaced(before) + " ", last);
      VisibleAppend(Spaced(before), " ");
      SpaceHasNoInk();
      VisibleAppend(Joined(before), last);
      hide Joined, Spaced;
      assert Visible(Spaced(before)) + [] == Visible(Spaced(before));
    }
  }

  lemma SpaceHasNoInk()
    ensures Visible(" ") == []
  {
    VisibleBlank(" ");
  }

  lemma {:induction false} JoinedBlank(sentences: seq<string>)
    ensures Visible(Joined(sentences)) == [] <==> AllBlank(sentences)
  {
    if sentences != [] {
      var before, last := sentences[..|sentences| - 1], sentences[|sentences| - 1];
      JoinedBlank(before);
      VisibleAppend(Joined(before), last);
      VisibleBlank(last);
      assert forall s :: s in sentences <==> s in before || s == last;
    }
  }

  /** What the history records of a streamed turn has the ink of its sentences, and is empty
      only if they are blank. */
  lemma StreamTextInk(t: Turn, sentences: seq<string>)
    requires CanStream(t)
    ensures Visible(StreamText(t, sentences)) == Visible(Joined(sentences))
    ensures StreamText(t, sentences) == "" <==> AllBlank(sentences)
  {
    var s := Spaced(sentences);
    VisibleStrip(s);
    SpacedInk(sentences);
    JoinedBlank(sentences);
    VisibleBlank(Strip(s));
    StripTrims(s);
  }

  /** For any sentences whatever, a turn has one final attempt and it is the last, except when
      everything streamed was blank: then the fallback speaks after a final attempt. */
  lemma OneFinalDelivery(t: Turn, sentences: seq<string>, generated: string)
    ensures OneFinal(Attempts(t, sentences, generated)) <==> !(CanStream(t) && sentences != [] && AllBlank(sentences))
  {
    hide Blank, Visible, Strip, Spaced;
    var attempts, n := Attempts(t, sentences, generated), |sentences|;
    if CanStream(t) {
      StreamTextInk(t, sentences);
      if sentences != [] && AllBlank(sentences) {
        assert attempts[n - 1].isFinal && n - 1 < |attempts| - 1;
      }
    }
  }

  /** With the sentences of a real stream that does not happen: streaming that delivered
      anything is all there is, and its sentences go out in order, once each. */
  lemma StreamingIsNeverFollowed(t: Turn, deltas: seq<string>, fails: bool, generated: string)
    ensures
      var sentences := Streamed(deltas, fails);
      var attempts := Attempts(t, sentences, generated);
      && OneFinal(attempts)
      && (CanStream(t) && sentences != [] ==> attempts == Lookahead(sentences))
      && (!CanStream(t) || sentences == [] ==> |attempts| <= 1)
  {
    hide Blank, Strip, Spaced, Streamed;
    var sentences := Streamed(deltas, fails);
    OneFinalDelivery(t, sentences, generated);
    if sentences != [] {
      StreamedHasInk(deltas, fails, sentences[0]);
      if CanStream(t) {
        StreamTextInk(t, sentences);
      }
    }
  }

  /** What is said in a turn, and on which path. Nothing without a need for audio, a callback and
      a voice; an action's text or the generated answer, once, if there is an action or a visual
      answer, or the model is not ready or not confident, or streams nothing; and otherwise the
      sentences of the stream, once each, the last one final. */
  lemma TurnSpeaks(t: Turn, deltas: seq<string>, fails: bool, generated: string)
    ensures
      var sentences := Streamed(deltas, fails);
      var attempts, reply := Attempts(t, sentences, generated), Reply(t, sentences, generated);
      && (!(t.needsAudio && t.hasDelivery && t.ttsReady) ==> attempts == [])
      && (t.actionHandled ==> reply == t.actionText)
      && (t.visualText != "" || !t.llmReady || t.confidence < 0.3 || sentences == [] ==>
            t.actionHandled || reply == generated)
      && (t.needsAudio && t.hasDelivery && t.ttsReady ==>
            if t.actionHandled || t.visualText != "" || !t.llmReady || t.confidence < 0.3 || sentences == []
            then attempts == [Attempt(reply, true)]
            else
              && Visible(reply) == Visible(Joined(sentences)) && |attempts| == |sentences|
              && forall i :: 0 <= i < |sentences| ==> attempts[i] == Attempt(sentences[i], i == |sentences| - 1))
  {
    hide Blank, Visible, Joined, Strip, Streamed;
    var sentences := Streamed(deltas, fails);
    StreamingIsNeverFollowed(t, deltas, fails, generated);
    NothingSaid();
    if CanStream(t) && sentences != [] {
      StreamTextInk(t, sentences);
      StreamedHasInk(deltas, fails, sentences[0]);
    }
  }

  lemma NothingSaid()
    ensures Strip(Spaced([])) == ""
  {
  }

  // ---- Into packets ----

  /** Each attempt that can be synthesised makes its one call, with its own audio and finality,
      after the calls of the attempts before it; the others make none. */
  lemma {:induction false} CallAt(synthesize: nat -> Option<D.AudioData>, attempts: seq<Attempt>, n: nat)
    requires n < |attempts|
    ensures
      var calls, k := Calls(synthesize, attempts), |Calls(synthesize, attempts[..n])|;
      && Calls(synthesize, attempts[..n]) <= calls
      && (if synthesize(n).Some? then k < |calls| && calls[k] == D.Call(synthesize(n), attempts[n].isFinal)
          else Calls(synthesize, attempts[..n + 1]) == Calls(synthesize, attempts[..n]))
      && (n == |attempts| - 1 ==> |calls| == k + (if synthesize(n).Some? then 1 else 0))
  {
    var before := attempts[..|attempts| - 1];
    assert attempts[..n + 1][..n] == attempts[..n];
    if n < |before| {
      assert before[..n] == attempts[..n] && before[..n + 1] == attempts[..n + 1];
      CallAt(synthesize, before, n);
    } else {
      assert attempts[..n] == before;
    }
  }

  lemma {:induction false} CallsKeepFinality(synthesize: nat -> Option<D.AudioData>, attempts: seq<Attempt>)
    requires OneFinal(attempts)
    ensures
      var calls := Calls(synthesize, attempts);
      && D.OneUtterance(calls)
      && (calls != [] && calls[|calls| - 1].isFinal <==> attempts != [] && synthesize(|attempts| - 1).Some?)
  {
    if attempts != [] {
      NoneFinal(synthesize, attempts[..|attempts| - 1]);
    }
  }

  lemma {:induction false} NoneFinal(synthesize: nat -> Option<D.AudioData>, attempts: seq<Attempt>)
    requires forall i :: 0 <= i < |attempts| ==> !attempts[i].isFinal
    ensures forall i :: 0 <= i < |Calls(synthesize, attempts)| ==> !Calls(synthesize, attempts)[i].isFinal
  {
    if attempts != [] {
      NoneFinal(synthesize, attempts[..|attempts| - 1]);
    }
  }

  /** Of all the packets of a turn whose deliveries complete, only the last can be final, and
      it is only if the last attempt could be synthesised. */
  lemma TurnPackets(codec: D.Codec, transcription: string, synthesize: nat -> Option<D.AudioData>,
                    t: Turn, deltas: seq<string>, fails: bool, generated: string)
    ensures
      var attempts := Attempts(t, Streamed(deltas, fails), generated);
      var calls := Calls(synthesize, attempts);
      var packets := D.Timeline(codec, transcription, calls);
      forall i :: 0 <= i < |packets| ==>
        (packets[i].isFinal <==>
          && i == |packets| - 1 && synthesize(|attempts| - 1).Some?
          && D.Packets(codec, calls[..|calls| - 1], calls[|calls| - 1]) != [])
  {
    hide Attempts, Streamed, Calls, D.Timeline, D.Packets;
    var attempts := Attempts(t, Streamed(deltas, fails), generated);
    var calls := Calls(synthesize, attempts);
    StreamingIsNeverFollowed(t, deltas, fails, generated);
    CallsKeepFinality(synthesize, attempts);
    NoAttempts(codec, transcription, synthesize);
    forall i | 0 <= i < |D.Timeline(codec, transcription, calls)|
      ensures D.Timeline(codec, transcription, calls)[i].isFinal <==>
                && i == |D.Timeline(codec, transcription, calls)| - 1 && synthesize(|attempts| - 1).Some?
                && D.Packets(codec, calls[..|calls| - 1], calls[|calls| - 1]) != []
    {
      D.OnlyTheLastIsFinal(codec, transcription, calls, i);
    }
  }

  lemma NoAttempts(codec: D.Codec, transcription: string, synthesize: nat -> Option<D.AudioData>)
    ensures Calls(synthesize, []) == [] && D.Timeline(codec, transcription, []) == []
  {
  }
}
