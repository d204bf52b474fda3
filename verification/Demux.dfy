/** The hub's gRPC receive loop (hub/src/grpc.rs): synthesised audio is handed to the
    subscribed device without waiting, so that a device that does not drain its channel loses
    its own frames and nobody else's. */
module Demux {
  import opened Audio

  /** The fields of a server message that the loop looks at; `isError` is any error code but none. */
  datatype Reply = Reply(
    deviceId: string, opus: seq<byte>, pcm: seq<byte>, sampleRate: u32, isFinal: bool, isError: bool)

  /** A device's subscription: the bounded channel and, for the record, what the device has
      taken out of it and how many frames it refused. */
  datatype Channel = Channel(capacity: nat, closed: bool, queue: seq<TtsFrame>, taken: seq<TtsFrame>, refused: nat)

  /** Everything that happens to the map of subscriptions, in any order. */
  datatype Event =
    | Incoming(msg: Reply)
    | Subscribed(deviceId: string, capacity: nat)
    | Unsubscribed(deviceId: string)
    | Taken(deviceId: string)
    | ReceiverDropped(deviceId: string)

  /** The frame of a message, if it carries audio or ends an utterance. */
  function FrameOf(msg: Reply): Option<TtsFrame> {
    if msg.isError || (msg.opus == [] && msg.pcm == [] && !msg.isFinal) then None
    else if msg.opus != [] then Some(TtsFrame(msg.opus, msg.sampleRate, msg.isFinal, true))
    else Some(TtsFrame(msg.pcm, msg.sampleRate, msg.isFinal, false))
  }

  // ---- What each device should get ----

  function About(e: Event): string {
    if e.Incoming? then e.msg.deviceId else e.deviceId
  }

  function Offer(c: Channel, frame: TtsFrame): Channel {
    if c.closed || |c.queue| >= c.capacity then c.(refused := c.refused + 1)
    else c.(queue := c.queue + [frame])
  }

  /** One event, as the device it is about sees it. */
  function Step(c: Option<Channel>, e: Event): Option<Channel> {
    match e
    case Subscribed(_, capacity) => Some(Channel(capacity, false, [], [], 0))
    case Unsubscribed(_) => None
    case Incoming(msg) => if c.None? || FrameOf(msg).None? then c else Some(Offer(c.value, FrameOf(msg).value))
    case Taken(_) =>
      if c.None? || c.value.queue == [] then c
      else Some(c.value.(queue := c.value.queue[1..], taken := c.value.taken + [c.value.queue[0]]))
    case ReceiverDropped(_) => if c.None? then c else Some(c.value.(closed := true))
  }

  /** The subscription of a device after its own events alone. */
  function Alone(events: seq<Event>): Option<Channel> {
    if events == [] then None else Step(Alone(events[..|events| - 1]), events[|events| - 1])
  }

  function Only(events: seq<Event>, deviceId: string): seq<Event> {
    if events == [] then []
    else
      var e := events[|events| - 1];
      Only(events[..|events| - 1], deviceId) + (if About(e) == deviceId then [e] else [])
  }

  /** Messages that have to be either routed or dropped. */
  function Routable(events: seq<Event>): nat {
    if events == [] then 0
    else
      var e := events[|events| - 1];
      Routable(events[..|events| - 1]) + (if e.Incoming? && FrameOf(e.msg).Some? then 1 else 0)
  }

  /** The shared map of subscriptions after one event. */
  function Apply(m: map<string, Channel>, e: Event): map<string, Channel> {
    var c := Step(Lookup(m, About(e)), e);
    if c.Some? then m[About(e) := c.value] else m - {About(e)}
  }

  /** The shared map after all events, of all devices, in the order in which they happen. */
  function Shared(events: seq<Event>): map<string, Channel> {
    if events == [] then map[] else Apply(Shared(events[..|events| - 1]), events[|events| - 1])
  }

  class RecvLoop {
    var ttsSub: map<string, Channel>
    var ttsFramesRouted: nat
    var ttsFramesDropped: nat
    ghost var events: seq<Event>

    ghost predicate Valid()
      reads this
    {
      && ttsSub == Shared(events)
      && ttsFramesRouted + ttsFramesDropped == Routable(events)
    }

    constructor ()
      ensures Valid() && events == []
    {
      ttsSub, ttsFramesRouted, ttsFramesDropped, events := map[], 0, 0, [];
    }

    /** Never waits: the frame is sent, or dropped and counted. */
    method OnMessage(msg: Reply)
      requires Valid()
      modifies this
      ensures Valid() && events == old(events) + [Incoming(msg)]
      ensures forall d :: d != msg.deviceId ==> Lookup(ttsSub, d) == Lookup(old(ttsSub), d)
      ensures
        var c := Lookup(old(ttsSub), msg.deviceId);
        var accepted := FrameOf(msg).Some? && c.Some? && !c.value.closed && |c.value.queue| < c.value.capacity;
        && ttsFramesRouted == old(ttsFramesRouted) + (if accepted then 1 else 0)
        && (accepted ==> Lookup(ttsSub, msg.deviceId) == Some(c.value.(queue := c.value.queue + [FrameOf(msg).value])))
        && (!accepted && FrameOf(msg).Some? && c.Some? ==>
              Lookup(ttsSub, msg.deviceId) == Some(c.value.(refused := c.value.refused + 1)))
    {
      hide Shared, Routable, FrameOf;
      EventStep(events, Incoming(msg));
      Unchanged(ttsSub, msg.deviceId);
      events := events + [Incoming(msg)];
      if msg.isError {
        NotAFrame(msg);
        return;
      }
      var hasOpus, hasPcm := msg.opus != [], msg.pcm != [];
      if !hasOpus && !hasPcm && !msg.isFinal {
        NotAFrame(msg);
        return;
      }
      var frame :=
        if hasOpus then TtsFrame(msg.opus, msg.sampleRate, msg.isFinal, true)
        else TtsFrame(msg.pcm, msg.sampleRate, msg.isFinal, false);
      IsFrame(msg, frame);
      if msg.deviceId in ttsSub {
        var channel := ttsSub[msg.deviceId];
        if !channel.closed && |channel.queue| < channel.capacity {
          ttsSub := ttsSub[msg.deviceId := channel.(queue := channel.queue + [frame])];
          ttsFramesRouted := ttsFramesRouted + 1;
        } else {
          ttsSub := ttsSub[msg.deviceId := channel.(refused := channel.refused + 1)];
          ttsFramesDropped := ttsFramesDropped + 1;
        }
      } else {
        ttsFramesDropped := ttsFramesDropped + 1;
      }
    }

    /** What the device tasks and transports do to the map and the channels meanwhile. */
    method OnDevice(e: Event)
      requires Valid() && !e.Incoming?
      modifies `ttsSub, `events
      ensures Valid() && events == old(events) + [e]
      ensures forall d :: d != e.deviceId ==> Lookup(ttsSub, d) == Lookup(old(ttsSub), d)
      ensures
        var c, c' := Lookup(old(ttsSub), e.deviceId), Lookup(ttsSub, e.deviceId);
        match e
        case Subscribed(_, capacity) => c' == Some(Channel(capacity, false, [], [], 0))
        case Unsubscribed(_) => c'.None?
        case Taken(_) =>
          c.Some? && c.value.queue != [] ==>
            c' == Some(c.value.(queue := c.value.queue[1..], taken := c.value.taken + [c.value.queue[0]]))
        case _ => c.Some? ==> c' == Some(c.value.(closed := true))
    {
      hide Shared, Routable;
      EventStep(events, e);
      events := events + [e];
      var now := Step(Lookup(ttsSub, e.deviceId), e);
      ttsSub := if now.Some? then ttsSub[e.deviceId := now.value] else ttsSub - {e.deviceId};
    }
  }

  function Lookup(m: map<string, Channel>, d: string): Option<Channel> {
    if d in m then Some(m[d]) else None
  }

  lemma NotAFrame(msg: Reply)
    requires msg.isError || (msg.opus == [] && msg.pcm == [] && !msg.isFinal)
    ensures FrameOf(msg).None?
  {
  }

  lemma IsFrame(msg: Reply, frame: TtsFrame)
    requires !msg.isError && (msg.opus != [] || msg.pcm != [] || msg.isFinal)
    requires frame == TtsFrame(if msg.opus != [] then msg.opus else msg.pcm, msg.sampleRate, msg.isFinal, msg.opus != [])
    ensures FrameOf(msg) == Some(frame)
  {
  }

  lemma EventStep(events: seq<Event>, e: Event)
    ensures Shared(events + [e]) == Apply(Shared(events), e)
    ensures Routable(events + [e]) == Routable(events) + (if e.Incoming? && FrameOf(e.msg).Some? then 1 else 0)
  {
    assert (events + [e])[..|events|] == events;
  }

  lemma Unchanged(m: map<string, Channel>, d: string)
    ensures d in m ==> m[d := m[d]] == m
    ensures d !in m ==> m - {d} == m
  {
  }

  // ---- A wedged device is alone in its misfortune ----

  /** In the map that all devices share, each device's channel is what its own events alone make
      of it. */
  lemma {:induction false} SharedIsAlone(events: seq<Event>, d: string)
    ensures Lookup(Shared(events), d) == Alone(Only(events, d))
  {
    if events != [] {
      var before, e := events[..|events| - 1], events[|events| - 1];
      SharedIsAlone(before, d);
      hide Step, Shared, Alone, Only, Routable;
      OwnStep(before, e, d);
      EventStep(before, e);
      assert events == before + [e];
    }
  }

  lemma OwnStep(before: seq<Event>, e: Event, d: string)
    ensures Alone(Only(before + [e], d)) ==
            if About(e) == d then Step(Alone(Only(before, d)), e) else Alone(Only(before, d))
  {
    hide Step;
    assert (before + [e])[..|before|] == before;
    var own := Only(before, d);
    assert (own + [e])[..|own|] == own && own + [] == own;
  }

  /** Two histories that agree on a device's own events leave it the same channel, whatever
      the other devices do or fail to do. */
  lemma NonInterference(a: seq<Event>, b: seq<Event>, d: string)
    requires Only(a, d) == Only(b, d)
    ensures Lookup(Shared(a), d) == Lookup(Shared(b), d)
  {
    SharedIsAlone(a, d);
    SharedIsAlone(b, d);
  }

  /** The frames offered to the device since it last subscribed. */
  function Offered(events: seq<Event>): seq<TtsFrame> {
    if events == [] then []
    else
      var before, e := Offered(events[..|events| - 1]), events[|events| - 1];
      match e
      case Subscribed(_, _) => []
      case Unsubscribed(_) => []
      case Incoming(msg) =>
        if Alone(events[..|events| - 1]).Some? && FrameOf(msg).Some? then before + [FrameOf(msg).value] else before
      case _ => before
  }

  /** `a` is `b` with elements left out. */
  predicate Subsequence(a: seq<TtsFrame>, b: seq<TtsFrame>) {
    a == [] ||
    (b != [] && (Subsequence(a, b[..|b| - 1]) ||
                 (a[|a| - 1] == b[|b| - 1] && Subsequence(a[..|a| - 1], b[..|b| - 1]))))
  }

  /** The device gets the frames offered to it in order, none twice, bounded by its capacity,
      and all of them if it refused none. */
  predicate Served(c: Channel, offered: seq<TtsFrame>) {
    var got := c.taken + c.queue;
    && Subsequence(got, offered) && |c.queue| <= c.capacity
    && |got| + c.refused == |offered|
    && (c.refused == 0 ==> got == offered)
  }

  lemma OfferServes(c: Channel, offered: seq<TtsFrame>, frame: TtsFrame)
    requires Served(c, offered)
    ensures Served(Offer(c, frame), offered + [frame])
  {
    var got, more := c.taken + c.queue, offered + [frame];
    assert more[..|offered|] == offered;
    if !c.closed && |c.queue| < c.capacity {
      var now := got + [frame];
      assert c.taken + (c.queue + [frame]) == now;
      assert now[..|got|] == got;
      assert Subsequence(now, more);
    }
  }

  lemma {:induction false} SubscribersAreServed(events: seq<Event>)
    requires Alone(events).Some?
    ensures Served(Alone(events).value, Offered(events))
  {
    hide FrameOf, Served, Offer;
    var before, e := events[..|events| - 1], events[|events| - 1];
    if e.Subscribed? {
      FreshlyServed(e.capacity);
    } else {
      SubscribersAreServed(before);
      var c := Alone(before).value;
      if e.Incoming? && FrameOf(e.msg).Some? {
        OfferServes(c, Offered(before), FrameOf(e.msg).value);
      }
      if e.Taken? && c.queue != [] {
        TakingServes(c, Offered(before));
      }
      if e.ReceiverDropped? {
        ClosingServes(c, Offered(before));
      }
    }
  }

  /** Since the device last subscribed its channel was open and had room whenever a frame came. */
  predicate AlwaysRoom(events: seq<Event>) {
    events == [] ||
    var before, e := events[..|events| - 1], events[|events| - 1];
    e.Subscribed? ||
    (AlwaysRoom(before) &&
      var c := Alone(before);
      e.Incoming? && FrameOf(e.msg).Some? && c.Some? ==> !c.value.closed && |c.value.queue| < c.value.capacity)
  }

  /** A frame is refused for want of room in the device's own channel and for nothing else: a
      device that drains it in time gets every frame, in order. */
  lemma {:induction false} RefusedExactly(events: seq<Event>)
    requires Alone(events).Some?
    ensures
      var c := Alone(events).value;
      && (c.refused == 0 <==> AlwaysRoom(events))
      && (AlwaysRoom(events) ==> c.taken + c.queue == Offered(events))
  {
    hide FrameOf, Offered, Served;
    var before, e := events[..|events| - 1], events[|events| - 1];
    if !e.Subscribed? {
      RefusedExactly(before);
    }
    if AlwaysRoom(events) {
      AllOffered(events);
    }
  }

  lemma AllOffered(events: seq<Event>)
    requires Alone(events).Some? && Alone(events).value.refused == 0
    ensures Alone(events).value.taken + Alone(events).value.queue == Offered(events)
  {
    SubscribersAreServed(events);
  }

  lemma FreshlyServed(capacity: nat)
    ensures Served(Channel(capacity, false, [], [], 0), [])
  {
  }

  lemma ClosingServes(c: Channel, offered: seq<TtsFrame>)
    requires Served(c, offered)
    ensures Served(c.(closed := true), offered)
  {
  }

  lemma TakingServes(c: Channel, offered: seq<TtsFrame>)
    requires Served(c, offered) && c.queue != []
    ensures Served(c.(queue := c.queue[1..], taken := c.taken + [c.queue[0]]), offered)
  {
    assert c.taken + [c.queue[0]] + c.queue[1..] == c.taken + c.queue;
  }
}
