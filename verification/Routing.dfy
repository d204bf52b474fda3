/** MQTT message routing with its caches and shortcuts (ai-server/mqtt/core/routing.py). */
module Routing {

  // ---- Topics and patterns as levels ----

  /** `split("/")`: at least one level, which may be empty. */
  function Split(s: string): (parts: seq<string>)
    ensures |parts| >= 1
  {
    if s == "" then [""]
    else
      var parts, c := Split(s[..|s| - 1]), s[|s| - 1];
      if c == '/' then parts + [""] else parts[..|parts| - 1] + [parts[|parts| - 1] + [c]]
  }

  function Join(parts: seq<string>): string
    requires parts != []
  {
    if |parts| == 1 then parts[0] else Join(parts[..|parts| - 1]) + "/" + parts[|parts| - 1]
  }

  lemma {:induction false} JoinSplit(s: string)
    ensures Join(Split(s)) == s
  {
    if s != "" {
      var before, c := s[..|s| - 1], s[|s| - 1];
      JoinSplit(before);
      var parts := Split(before);
      assert s == before + [c];
      if c == '/' {
        assert (parts + [""])[..|parts|] == parts;
        assert before + "/" + "" == s;
      } else {
        var now := parts[..|parts| - 1] + [parts[|parts| - 1] + [c]];
        assert now[..|now| - 1] == parts[..|parts| - 1];
        if |parts| > 1 {
          var front := Join(parts[..|parts| - 1]) + "/";
          assert front + (parts[|parts| - 1] + [c]) == (front + parts[|parts| - 1]) + [c];
        }
      }
    }
  }

  /** Every level is made of characters of the topic. */
  lemma {:induction false} LevelsHaveItsCharacters(s: string, part: string, c: char)
    requires part in Split(s) && c in part
    ensures c in s
  {
    if s != "" {
      var before, last := s[..|s| - 1], s[|s| - 1];
      var parts := Split(before);
      assert s == before + [last];
      if part in parts {
        LevelsHaveItsCharacters(before, part, c);
      } else if last != '/' && c in parts[|parts| - 1] {
        LevelsHaveItsCharacters(before, parts[|parts| - 1], c);
      }
    }
  }

  /** The first `#` of a pattern, or its length. */
  function HashAt(pattern: seq<string>): (h: nat)
    ensures h <= |pattern|
    ensures forall i :: 0 <= i < h ==> pattern[i] != "#"
    ensures h < |pattern| ==> pattern[h] == "#"
  {
    if pattern == [] || pattern[0] == "#" then 0 else 1 + HashAt(pattern[1..])
  }

  predicate LevelAgrees(level: string, pattern: string) {
    pattern == "+" || pattern == level
  }

  /** Levels before the first `#` agree one by one, and at least one level is left for `#`, or
      none if there is no `#`. */
  predicate LevelsMatch(topic: seq<string>, pattern: seq<string>) {
    var h := HashAt(pattern);
    && (if h < |pattern| then |topic| > h else |topic| == h)
    && forall i :: 0 <= i < h ==> LevelAgrees(topic[i], pattern[i])
  }

  /** A `+` stands for whatever one level is there: a pattern matches with it in the place of a
      level exactly if it would match with that level in the topic. */
  lemma PlusIsAnyLevel(topic: seq<string>, pattern: seq<string>, i: nat)
    requires i < HashAt(pattern) && pattern[i] != "+"
    ensures LevelsMatch(topic, pattern[i := "+"]) <==> i < |topic| && LevelsMatch(topic[i := pattern[i]], pattern)
  {
    var p := pattern[i := "+"];
    HashStays(pattern, i);
    if i < |topic| {
      var t := topic[i := pattern[i]];
      assert forall k :: 0 <= k < HashAt(p) && k < |topic| && k != i ==> t[k] == topic[k] && p[k] == pattern[k];
    }
  }

  lemma HashStays(pattern: seq<string>, i: nat)
    requires i < HashAt(pattern)
    ensures HashAt(pattern[i := "+"]) == HashAt(pattern)
  {
    var p, h, h' := pattern[i := "+"], HashAt(pattern), HashAt(pattern[i := "+"]);
    assert h < |pattern| ==> p[h] == "#";
    assert h' < |pattern| ==> pattern[h'] == "#";
  }

  predicate Matches(topic: string, pattern: string) {
    LevelsMatch(Split(topic), Split(pattern))
  }

  method MatchTopicParts(topicParts: seq<string>, patternParts: seq<string>) returns (matched: bool)
    ensures matched <==> LevelsMatch(topicParts, patternParts)
  {
    var i, j := 0, 0;
    while i < |topicParts| && j < |patternParts|
      invariant i == j <= |topicParts| && j <= |patternParts|
      invariant forall k :: 0 <= k < i ==> patternParts[k] != "#" && LevelAgrees(topicParts[k], patternParts[k])
    {
      if patternParts[j] == "#" {
        return true;
      } else if patternParts[j] == "+" || patternParts[j] == topicParts[i] {
        i, j := i + 1, j + 1;
      } else {
        return false;
      }
    }
    return i == |topicParts| && j == |patternParts|;
  }

  /** The shortcuts change nothing. */
  method TopicMatches(actualTopic: string, pattern: string) returns (matched: bool)
    ensures matched <==> Matches(actualTopic, pattern)
  {
    if pattern == actualTopic {
      return true;
    }
    if '+' !in pattern && '#' !in pattern {
      NoWildcards(actualTopic, pattern);
      return false;
    }
    matched := MatchTopicParts(Split(actualTopic), Split(pattern));
  }

  /** Without wildcards only the topic itself matches. */
  lemma NoWildcards(topic: string, pattern: string)
    requires '+' !in pattern && '#' !in pattern
    ensures Matches(topic, pattern) <==> topic == pattern
  {
    hide Join, Split;
    var t, p := Split(topic), Split(pattern);
    forall i | 0 <= i < |p| ensures p[i] != "+" && p[i] != "#" {
      if p[i] == "+" {
        LevelsHaveItsCharacters(pattern, p[i], '+');
      }
      if p[i] == "#" {
        LevelsHaveItsCharacters(pattern, p[i], '#');
      }
    }
    if LevelsMatch(t, p) {
      assert t == p;
      JoinSplit(topic);
      JoinSplit(pattern);
    }
  }

  /** `#` as documented: for zero or more levels, and only at the end of a pattern. */
  predicate DocumentedMatch(topic: seq<string>, pattern: seq<string>) {
    var h := HashAt(pattern);
    && h >= |pattern| - 1
    && (if h < |pattern| then |topic| >= h else |topic| == h)
    && forall i :: 0 <= i < h ==> LevelAgrees(topic[i], pattern[i])
  }

  /** The code departs from that exactly where what stands before a last `#` matches by itself,
      and where a pattern with a `#` elsewhere matches at all. */
  lemma HashParent(topic: string, pattern: string)
    ensures
      var t, p, h := Split(topic), Split(pattern), HashAt(Split(pattern));
      (Matches(topic, pattern) <==> DocumentedMatch(t, p)) <==>
        if h >= |p| - 1 then !(h < |p| && LevelsMatch(t, p[..h])) else !Matches(topic, pattern)
  {
  }

  lemma {:induction false} HashAtHead(head: seq<string>, rest: seq<string>)
    requires "#" in head
    ensures HashAt(head + rest) == HashAt(head)
  {
    if head[0] != "#" {
      assert (head + rest)[1..] == head[1..] + rest;
      HashAtHead(head[1..], rest);
    }
  }

  /** What follows a `#` in a pattern is never looked at. */
  lemma RestIsIgnored(topic: seq<string>, head: seq<string>, rest: seq<string>)
    requires "#" in head
    ensures LevelsMatch(topic, head + rest) <==> LevelsMatch(topic, head)
  {
    HashAtHead(head, rest);
    hide HashAt;
    assert forall i :: 0 <= i < |head| ==> (head + rest)[i] == head[i];
  }

  lemma SplitBehind(s: string)
    ensures Split(s + "/#") == Split(s) + ["#"]
  {
    var slash := s + "/";
    assert slash[..|s|] == s;
    assert Split(slash) == Split(s) + [""];
    assert s + "/#" == slash + "#";
    assert (slash + "#")[..|slash|] == slash;
    assert (Split(s) + [""])[..|Split(s)|] == Split(s);
    assert "" + ['#'] == "#";
  }

  /** No topic without a `#` matches the pattern made of it and `/#`, as documented it should. */
  lemma ParentNeverMatches(topic: string)
    requires '#' !in topic
    ensures !Matches(topic, topic + "/#") && DocumentedMatch(Split(topic), Split(topic + "/#"))
  {
    SplitBehind(topic);
    var t := Split(topic);
    forall i | 0 <= i < |t| ensures t[i] != "#" {
      if t[i] == "#" {
        LevelsHaveItsCharacters(topic, t[i], '#');
      }
    }
    hide Split, HashAt;
    var p := t + ["#"];
    assert p[|t|] == "#";
    assert HashAt(p) == |t| by {
      assert forall i :: 0 <= i < |t| ==> p[i] == t[i];
    }
  }

  lemma ParentExample()
    ensures !Matches("a", "a/#") && DocumentedMatch(Split("a"), Split("a/#"))
  {
    ParentNeverMatches("a");
    assert "a" + "/#" == "a/#";
  }

  // ---- What a cache-free router runs ----

  /** One handler registered under one pattern. */
  datatype Registration<H> = Registration(pattern: string, handler: H)

  /** The patterns, in the order of their first registration. */
  function Patterns<H>(regs: seq<Registration<H>>): seq<string> {
    if regs == [] then []
    else
      var ps, p := Patterns(regs[..|regs| - 1]), regs[|regs| - 1].pattern;
      if p in ps then ps else ps + [p]
  }

  /** The handlers under one pattern, in the order of registration. */
  function Under<H>(regs: seq<Registration<H>>, pattern: string): seq<H> {
    if regs == [] then []
    else
      var r := regs[|regs| - 1];
      Under(regs[..|regs| - 1], pattern) + (if r.pattern == pattern then [r.handler] else [])
  }

  function Scan<H>(patterns: seq<string>, regs: seq<Registration<H>>, topic: string): seq<H> {
    if patterns == [] then []
    else
      var p := patterns[|patterns| - 1];
      Scan(patterns[..|patterns| - 1], regs, topic) + (if Matches(topic, p) then Under(regs, p) else [])
  }

  /** The handlers for a topic: pattern by pattern, each pattern's in order. */
  function Selected<H>(regs: seq<Registration<H>>, topic: string): seq<H> {
    Scan(Patterns(regs), regs, topic)
  }

  lemma PatternsSnoc<H>(regs: seq<Registration<H>>, r: Registration<H>)
    ensures Patterns(regs + [r]) == if r.pattern in Patterns(regs) then Patterns(regs) else Patterns(regs) + [r.pattern]
    ensures forall p :: Under(regs + [r], p) == if r.pattern == p then Under(regs, p) + [r.handler] else Under(regs, p)
  {
    assert (regs + [r])[..|regs|] == regs;
  }

  lemma {:induction false} NothingUnder<H>(regs: seq<Registration<H>>, p: string)
    requires p !in Patterns(regs)
    ensures Under(regs, p) == []
  {
    if regs != [] {
      NothingUnder(regs[..|regs| - 1], p);
    }
  }

  /** The handlers of a matching pattern run next to each other, after those of the matching
      patterns that were registered before it; registering more takes nothing from the front. */
  lemma {:induction false} RunInOrder<H>(patterns: seq<string>, regs: seq<Registration<H>>, topic: string, n: nat)
    requires n < |patterns|
    ensures
      Scan(patterns[..n], regs, topic) + (if Matches(topic, patterns[n]) then Under(regs, patterns[n]) else [])
      <= Scan(patterns, regs, topic)
  {
    hide Matches, Under;
    var before := patterns[..|patterns| - 1];
    if n < |before| {
      assert before[..n] == patterns[..n];
      RunInOrder(before, regs, topic, n);
    } else {
      assert patterns[..n] == before;
    }
  }

  /** One handler under each of the topics given, in order. */
  function Registrations<H>(topics: seq<string>, handler: H): seq<Registration<H>> {
    seq(|topics|, i requires 0 <= i < |topics| => Registration(topics[i], handler))
  }

  lemma NoRegistrations<H>(handler: H)
    ensures Registrations([], handler) == []
  {
  }

  lemma NextRegistration<H>(before: seq<Registration<H>>, topics: seq<string>, i: nat, handler: H)
    requires i < |topics|
    ensures before + Registrations(topics[..i + 1], handler) ==
            before + Registrations(topics[..i], handler) + [Registration(topics[i], handler)]
  {
    assert Registrations(topics[..i + 1], handler) == Registrations(topics[..i], handler) + [Registration(topics[i], handler)];
  }

  class MessageRouter<H> {
    const topicCacheSize: int
    const parseTopic: string -> TopicInfo
    /** The dictionary of handler lists: its keys in order of insertion, and the lists. */
    var patterns: seq<string>
    var eventHandlers: map<string, seq<H>>
    var handlerCache: map<string, seq<H>>
    var topicKeys: seq<string>
    var topicCache: map<string, TopicInfo>
    var cacheHits: nat
    var cacheMisses: nat
    ghost var regs: seq<Registration<H>>

    ghost predicate HandlersValid()
      reads `patterns, `eventHandlers, `regs
    {
      && patterns == Patterns(regs)
      && (forall p :: p in eventHandlers <==> p in patterns)
      && (forall p :: p in eventHandlers ==> eventHandlers[p] == Under(regs, p))
    }

    ghost predicate CacheValid()
      reads this
    {
      forall t :: t in handlerCache ==> handlerCache[t] == Selected(regs, t)
    }

    constructor (parseTopic: string -> TopicInfo, topicCacheSize: int := 1000)
      ensures HandlersValid() && CacheValid() && TopicsValid() && regs == [] && topicKeys == []
      ensures this.parseTopic == parseTopic && this.topicCacheSize == topicCacheSize
    {
      this.parseTopic, this.topicCacheSize := parseTopic, topicCacheSize;
      patterns, eventHandlers, handlerCache, regs := [], map[], map[], [];
      topicKeys, topicCache, cacheHits, cacheMisses := [], map[], 0, 0;
    }

    method RegisterHandler(topics: seq<string>, handler: H)
      requires HandlersValid()
      modifies `patterns, `eventHandlers, `handlerCache, `regs
      ensures HandlersValid() && CacheValid()
      ensures regs == old(regs) + Registrations(topics, handler)
    {
      hide MessageRouter.HandlersValid, Registrations;
      assert old(regs) + Registrations(topics[..0], handler) == old(regs) by {
        NoRegistrations(handler);
      }
      var i := 0;
      while i < |topics|
        invariant i <= |topics| && HandlersValid()
        invariant regs == old(regs) + Registrations(topics[..i], handler)
      {
        NextRegistration(old(regs), topics, i, handler);
        AppendHandler(topics[i], handler);
        i := i + 1;
      }
      assert topics[..i] == topics;
      handlerCache := map[];
    }

    method AppendHandler(topic: string, handler: H)
      requires HandlersValid()
      modifies `patterns, `eventHandlers, `regs
      ensures HandlersValid() && regs == old(regs) + [Registration(topic, handler)]
    {
      hide Patterns, Under;
      PatternsSnoc(regs, Registration(topic, handler));
      if topic !in eventHandlers {
        NothingUnder(regs, topic);
        eventHandlers := eventHandlers[topic := []];
        patterns := patterns + [topic];
      }
      eventHandlers := eventHandlers[topic := eventHandlers[topic] + [handler]];
      regs := regs + [Registration(topic, handler)];
    }

    /** Runs exactly the handlers that a scan of the registrations finds, in its order. */
    method RouteMessage(topic: string) returns (run: seq<H>)
      requires HandlersValid() && CacheValid()
      modifies `handlerCache, `cacheHits, `cacheMisses
      ensures HandlersValid() && CacheValid()
      ensures run == Selected(regs, topic)
      ensures cacheHits + cacheMisses == old(cacheHits + cacheMisses) + 1
    {
      hide Matches, Patterns, Under;
      if topic in handlerCache {
        cacheHits := cacheHits + 1;
        run := handlerCache[topic];
      } else {
        cacheMisses := cacheMisses + 1;
        run := [];
        var i := 0;
        while i < |patterns|
          invariant i <= |patterns| && run == Scan(patterns[..i], regs, topic)
          invariant handlerCache == old(handlerCache) && cacheHits == old(cacheHits) && cacheMisses == old(cacheMisses) + 1
        {
          var matched := TopicMatches(topic, patterns[i]);
          assert patterns[..i + 1][..i] == patterns[..i];
          if matched {
            run := run + eventHandlers[patterns[i]];
          }
          i := i + 1;
        }
        assert patterns[..i] == patterns;
        handlerCache := handlerCache[topic := run];
      }
    }

    ghost predicate TopicsValid()
      reads this
    {
      && (forall t :: t in topicCache <==> t in topicKeys)
      && (forall t :: t in topicCache ==> topicCache[t] == parseTopic(t))
      && Once(topicKeys)
      && |topicKeys| <= Max(1, topicCacheSize)
    }

    /** The cached answer is the parsed one, and the cache stays within its size. */
    method GetCachedTopicInfo(topic: string) returns (info: TopicInfo)
      requires TopicsValid()
      modifies `topicKeys, `topicCache
      ensures TopicsValid() && info == parseTopic(topic)
      ensures topicKeys == if topic in old(topicKeys) then old(topicKeys) else AfterEviction(old(topicKeys), topicCacheSize) + [topic]
    {
      hide Once, Max, AfterEviction;
      if topic in topicCache {
        info := topicCache[topic];
      } else {
        info := parseTopic(topic);
        var kept := AfterEviction(topicKeys, topicCacheSize);
        EvictionMakesRoom(topicKeys, topicCacheSize, topic);
        if |topicKeys| >= topicCacheSize {
          topicCache := map t | t in topicCache && t in kept :: topicCache[t];
          topicKeys := kept;
        }
        topicCache := topicCache[topic := info];
        topicKeys := topicKeys + [topic];
      }
    }
  }

  /** A full cache loses its first tenth, but at least one key. */
  function AfterEviction(keys: seq<string>, size: int): seq<string> {
    var evictCount := Max(1, size / 10);
    if |keys| < size then keys
    else if evictCount <= |keys| then keys[evictCount..]
    else []
  }

  lemma EvictionMakesRoom(keys: seq<string>, size: int, topic: string)
    requires Once(keys) && topic !in keys && |keys| <= Max(1, size)
    ensures
      var kept := AfterEviction(keys, size);
      && Once(kept + [topic]) && |kept| < Max(1, size)
      && (forall t :: t in kept ==> t in keys)
      && (|keys| < size ==> kept == keys)
  {
    var kept := AfterEviction(keys, size);
    assert (kept + [topic])[..|kept|] == kept;
    OnceFrom(keys, |keys| - |kept|);
  }

  /** Eviction always makes room for one more; what stays are the newest keys, in their order. */
  lemma EvictionKeeps(keys: seq<string>, size: int, topic: string)
    requires Once(keys) && topic !in keys && |keys| <= Max(1, size)
    ensures
      var kept := AfterEviction(keys, size);
      && |kept| <= |keys| && kept == keys[|keys| - |kept|..]
      && |keys| - |kept| == (if |keys| < size then 0 else if Max(1, size / 10) <= |keys| then Max(1, size / 10) else |keys|)
      && Once(kept + [topic]) && |kept + [topic]| <= Max(1, size)
  {
    EvictionMakesRoom(keys, size, topic);
  }

  lemma {:induction false} OnceFrom(keys: seq<string>, n: nat)
    requires Once(keys) && n <= |keys|
    ensures Once(keys[n..])
  {
    if n < |keys| {
      OnceFrom(keys[..|keys| - 1], n);
      assert keys[n..][..|keys| - 1 - n] == keys[..|keys| - 1][n..];
    }
  }

  function Max(a: int, b: int): int { if a >= b then a else b }

  /** What a topic parses to. */
  datatype TopicInfo = TopicInfo(category: string, deviceId: string, messageType: string, subtype: string)

  // ---- Each matching registration runs once ----

  /** The handlers of the matching registrations, in order of registration. */
  function Matching<H>(regs: seq<Registration<H>>, topic: string): seq<H> {
    if regs == [] then []
    else
      var r := regs[|regs| - 1];
      Matching(regs[..|regs| - 1], topic) + (if Matches(topic, r.pattern) then [r.handler] else [])
  }

  predicate Once(patterns: seq<string>) {
    patterns == [] || (patterns[|patterns| - 1] !in patterns[..|patterns| - 1] && Once(patterns[..|patterns| - 1]))
  }

  lemma {:induction false} PatternsOnce<H>(regs: seq<Registration<H>>)
    ensures Once(Patterns(regs))
  {
    if regs != [] {
      PatternsOnce(regs[..|regs| - 1]);
      var ps, p := Patterns(regs[..|regs| - 1]), regs[|regs| - 1].pattern;
      assert (ps + [p])[..|ps|] == ps;
    }
  }

  lemma ScanSnoc<H>(patterns: seq<string>, p: string, regs: seq<Registration<H>>, topic: string)
    ensures Scan(patterns + [p], regs, topic) ==
            Scan(patterns, regs, topic) + (if Matches(topic, p) then Under(regs, p) else [])
  {
    assert (patterns + [p])[..|patterns|] == patterns;
  }

  /** What a pattern contributes to a scan, as a multiset, before and after a registration. */
  lemma ShareGrows<H>(p: string, regs: seq<Registration<H>>, r: Registration<H>, matches: bool)
    ensures multiset(if matches then Under(regs + [r], p) else []) ==
            multiset(if matches then Under(regs, p) else []) +
            (if matches && r.pattern == p then multiset{r.handler} else multiset{})
  {
    hide Under, Patterns;
    PatternsSnoc(regs, r);
  }

  lemma Bags<H>(a: seq<H>, b: seq<H>)
    ensures multiset(a + b) == multiset(a) + multiset(b)
  {
  }

  /** One more registration adds its handler once, wherever its pattern stands. */
  lemma {:induction false} ScanGrows<H>(patterns: seq<string>, regs: seq<Registration<H>>, r: Registration<H>, topic: string)
    requires Once(patterns)
    ensures multiset(Scan(patterns, regs + [r], topic)) ==
            multiset(Scan(patterns, regs, topic)) +
            (if r.pattern in patterns && Matches(topic, r.pattern) then multiset{r.handler} else multiset{})
  {
    hide Matches, Under, Patterns, Scan;
    if patterns == [] {
      NoPatternsScanned(regs, topic);
      NoPatternsScanned(regs + [r], topic);
    } else {
      var before, p := patterns[..|patterns| - 1], patterns[|patterns| - 1];
      assert patterns == before + [p];
      ScanGrows(before, regs, r, topic);
      ScanSnoc(before, p, regs, topic);
      ScanSnoc(before, p, regs + [r], topic);
      ShareGrows(p, regs, r, Matches(topic, p));
      Bags(Scan(before, regs, topic), if Matches(topic, p) then Under(regs, p) else []);
      Bags(Scan(before, regs + [r], topic), if Matches(topic, p) then Under(regs + [r], p) else []);
    }
  }

  lemma NoPatternsScanned<H>(regs: seq<Registration<H>>, topic: string)
    ensures Scan([], regs, topic) == []
  {
  }

  function Share<H>(r: Registration<H>, topic: string): seq<H> {
    if Matches(topic, r.pattern) then [r.handler] else []
  }

  lemma SelectedSnoc<H>(before: seq<Registration<H>>, r: Registration<H>, topic: string)
    ensures multiset(Selected(before + [r], topic)) == multiset(Selected(before, topic)) + multiset(Share(r, topic))
  {
    hide Matches, Under, Patterns, Scan, Once;
    var ps, p, regs := Patterns(before), r.pattern, before + [r];
    PatternsOnce(before);
    ScanGrows(ps, before, r, topic);
    PatternsSnoc(before, r);
    if p !in ps {
      NothingUnder(before, p);
      ScanSnoc(ps, p, regs, topic);
      Bags(Scan(ps, regs, topic), Share(r, topic));
      assert Selected(regs, topic) == Scan(ps, regs, topic) + Share(r, topic);
      assert multiset(Scan(ps, regs, topic)) == multiset(Scan(ps, before, topic));
    }
  }

  /** A message runs a handler as often as it is registered under a matching pattern. */
  lemma {:induction false} EachMatchOnce<H>(regs: seq<Registration<H>>, topic: string)
    ensures multiset(Selected(regs, topic)) == multiset(Matching(regs, topic))
  {
    hide Matches, Selected;
    if regs == [] {
      NothingSelected<H>(topic);
    } else {
      var before, r := regs[..|regs| - 1], regs[|regs| - 1];
      assert regs == before + [r];
      EachMatchOnce(before, topic);
      SelectedSnoc(before, r, topic);
      Bags(Matching(before, topic), Share(r, topic));
    }
  }

  lemma NothingSelected<H>(topic: string)
    ensures Selected<H>([], topic) == []
  {
  }
}
