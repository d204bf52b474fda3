/** The migration runner of the memory store (ai-server/memory/db.py), with failures of
    reading, of any statement and of the transaction commands themselves. */
module Migrations {
  import opened Audio
  import opened Text
  import opened Sentences

  /** A migration file that was discovered; its text is kept as lines with their line ends. */
  datatype Migration = Migration(version: int, lines: seq<string>)

  /** A directory entry; `version` is the number before the first underscore of its name. */
  datatype Entry = Entry(isFile: bool, isSql: bool, version: Option<nat>, lines: seq<string>)

  // ---- Splitting a script into statements ----

  /** The pieces up to each line that completes a statement, and the unfinished rest. */
  function Chunks(complete: string -> bool, lines: seq<string>): (seq<string>, string) {
    if lines == [] then ([], "")
    else
      var (done, buffer) := Chunks(complete, lines[..|lines| - 1]);
      var longer := buffer + lines[|lines| - 1];
      if complete(longer) then (done + [longer], "") else (done, longer)
  }

  /** The pieces without surrounding whitespace, blank ones left out. */
  function Trimmed(pieces: seq<string>): seq<string> {
    if pieces == [] then []
    else
      var t := Strip(pieces[|pieces| - 1]);
      Trimmed(pieces[..|pieces| - 1]) + (if t == "" then [] else [t])
  }

  function Statements(complete: string -> bool, lines: seq<string>): seq<string> {
    var (done, buffer) := Chunks(complete, lines);
    Trimmed(done + [buffer])
  }

  lemma TrimmedSnoc(pieces: seq<string>, piece: string)
    ensures Trimmed(pieces + [piece]) == Trimmed(pieces) + (if Strip(piece) == "" then [] else [Strip(piece)])
  {
    assert (pieces + [piece])[..|pieces|] == pieces;
  }

  method SplitStatements(complete: string -> bool, lines: seq<string>) returns (out: seq<string>)
    ensures out == Statements(complete, lines)
  {
    hide Trimmed, Strip;
    out := [];
    ghost var done: seq<string> := [];
    NothingTrimmed();
    var buffer, i := "", 0;
    while i < |lines|
      invariant i <= |lines| && Chunks(complete, lines[..i]) == (done, buffer) && out == Trimmed(done)
    {
      assert lines[..i + 1][..i] == lines[..i];
      buffer := buffer + lines[i];
      if complete(buffer) {
        var stmt := Strip(buffer);
        TrimmedSnoc(done, buffer);
        done := done + [buffer];
        if stmt != "" {
          out := out + [stmt];
        }
        buffer := "";
      }
      i := i + 1;
    }
    assert lines[..i] == lines;
    TrimmedSnoc(done, buffer);
    var tail := Strip(buffer);
    if tail != "" {
      out := out + [tail];
    }
  }

  lemma NothingTrimmed()
    ensures Trimmed([]) == []
  {
  }

  /** A statement is a piece without surrounding whitespace; each piece that is not blank is one,
      after those of the pieces before it, and the others are none. */
  lemma {:induction false} TrimmedAt(pieces: seq<string>, n: nat)
    requires n < |pieces|
    ensures
      var all, k := Trimmed(pieces), |Trimmed(pieces[..n])|;
      && Trimmed(pieces[..n]) <= all
      && (if Blank(pieces[n]) then Trimmed(pieces[..n + 1]) == Trimmed(pieces[..n])
          else k < |all| && all[k] == Strip(pieces[n]) != "")
      && (n == |pieces| - 1 ==> |all| == k + (if Blank(pieces[n]) then 0 else 1))
  {
    hide Strip, Blank;
    var before := pieces[..|pieces| - 1];
    assert pieces[..n + 1][..n] == pieces[..n];
    BlankIsNothing(pieces[n]);
    if n < |before| {
      assert before[..n] == pieces[..n] && before[..n + 1] == pieces[..n + 1];
      TrimmedAt(before, n);
    } else {
      assert pieces[..n] == before;
    }
  }

  lemma BlankIsNothing(s: string)
    ensures Strip(s) == "" <==> Blank(s)
  {
    VisibleStrip(s);
    VisibleBlank(s);
    VisibleBlank(Strip(s));
    StripTrims(s);
  }

  /** Splitting loses no ink of the script and changes no order. */
  lemma StatementsConserve(complete: string -> bool, lines: seq<string>)
    ensures Visible(Joined(Statements(complete, lines))) == Visible(Joined(lines))
  {
    hide Trimmed, Chunks, Joined, Visible;
    var (done, buffer) := Chunks(complete, lines);
    ChunksConserve(complete, lines);
    JoinedAppend(done, [buffer]);
    SinglePiece(buffer);
    TrimmedInk(done + [buffer]);
  }

  lemma {:induction false} ChunksConserve(complete: string -> bool, lines: seq<string>)
    ensures
      var (done, buffer) := Chunks(complete, lines);
      && Visible(Joined(done)) + Visible(buffer) == Visible(Joined(lines))
      && (forall s :: s in done ==> complete(s))
  {
    hide Visible, Joined;
    if lines == [] {
      NoPiece();
    } else {
      var before, line := lines[..|lines| - 1], lines[|lines| - 1];
      var (done, buffer) := Chunks(complete, before);
      ChunksConserve(complete, before);
      assert lines == before + [line];
      JoinedAppend(before, [line]);
      SinglePiece(line);
      VisibleAppend(buffer, line);
      JoinedAppend(done, [buffer + line]);
      SinglePiece(buffer + line);
      NoPiece();
      var p, q, r := Visible(Joined(done)), Visible(buffer), Visible(line);
      assert (p + q) + r == p + (q + r);
    }
  }

  function LastCut(cuts: seq<nat>): nat {
    if cuts == [] then 0 else cuts[|cuts| - 1]
  }

  predicate NoneComplete(complete: string -> bool, lines: seq<string>, from: nat, to: nat)
    requires to <= |lines| + 1
  {
    forall j :: from < j < to ==> !complete(Joined(lines[from..j]))
  }

  /** The piece `text` is the lines `from` up to `to`, the fewest that are complete. */
  predicate IsChunk(complete: string -> bool, lines: seq<string>, from: nat, to: nat, text: string) {
    from < to <= |lines| && text == Joined(lines[from..to]) && complete(text) && NoneComplete(complete, lines, from, to)
  }

  ghost predicate CutAt(complete: string -> bool, lines: seq<string>, cuts: seq<nat>, done: seq<string>, rest: string) {
    && |cuts| == |done| && LastCut(cuts) <= |lines|
    && (forall i :: 0 <= i < |cuts| ==> IsChunk(complete, lines, LastCut(cuts[..i]), cuts[i], done[i]))
    && rest == Joined(lines[LastCut(cuts)..]) && NoneComplete(complete, lines, LastCut(cuts), |lines| + 1)
  }

  /** The script is cut after each line that completes a statement, and nowhere else: each piece
      goes from the cut before it to the first line that makes it complete, and no part of the
      rest is complete. */
  lemma {:induction false} ChunksAreShortest(complete: string -> bool, lines: seq<string>) returns (cuts: seq<nat>)
    ensures var (done, rest) := Chunks(complete, lines); CutAt(complete, lines, cuts, done, rest)
  {
    NoPiece();
    if lines == [] {
      cuts := [];
    } else {
      var before, line := lines[..|lines| - 1], lines[|lines| - 1];
      var (done, rest) := Chunks(complete, before);
      cuts := ChunksAreShortest(complete, before);
      assert lines == before + [line];
      cuts := OneMoreLine(complete, before, line, cuts, done, rest);
    }
  }

  lemma OneMoreLine(complete: string -> bool, before: seq<string>, line: string,
                    cuts: seq<nat>, done: seq<string>, rest: string) returns (now: seq<nat>)
    requires CutAt(complete, before, cuts, done, rest)
    ensures
      if complete(rest + line) then CutAt(complete, before + [line], now, done + [rest + line], "")
      else CutAt(complete, before + [line], now, done, rest + line)
  {
    hide Joined, IsChunk, NoneComplete;
    var lines, last := before + [line], LastCut(cuts);
    now := if complete(rest + line) then cuts + [|lines|] else cuts;
    forall i | 0 <= i < |cuts| ensures now[..i] == cuts[..i] && IsChunk(complete, lines, LastCut(cuts[..i]), cuts[i], done[i]) {
      ChunkStays(complete, before, line, LastCut(cuts[..i]), cuts[i], done[i]);
    }
    RestGrows(complete, before, line, last, rest);
    assert now[..|cuts|] == cuts;
  }

  lemma RestGrows(complete: string -> bool, before: seq<string>, line: string, last: nat, rest: string)
    requires last <= |before| && rest == Joined(before[last..]) && NoneComplete(complete, before, last, |before| + 1)
    ensures
      var lines := before + [line];
      if complete(rest + line) then
        && IsChunk(complete, lines, last, |lines|, rest + line)
        && Joined(lines[|lines|..]) == "" && NoneComplete(complete, lines, |lines|, |lines| + 1)
      else rest + line == Joined(lines[last..]) && NoneComplete(complete, lines, last, |lines| + 1)
  {
    hide Joined, Visible, Search;
    NoPiece();
    var lines := before + [line];
    JoinedSnoc(before[last..], line);
    assert lines[last..] == before[last..] + [line];
    assert lines[last..|lines|] == lines[last..];
    assert forall j: nat :: last <= j <= |before| ==> lines[last..j] == before[last..j];
    assert lines[|lines|..] == [];
  }

  lemma ChunkStays(complete: string -> bool, before: seq<string>, line: string, from: nat, to: nat, text: string)
    requires IsChunk(complete, before, from, to, text)
    ensures IsChunk(complete, before + [line], from, to, text)
  {
    hide Joined;
    assert forall j: nat :: from <= j <= to ==> (before + [line])[from..j] == before[from..j];
  }

  lemma {:induction false} TrimmedInk(pieces: seq<string>)
    ensures Visible(Joined(Trimmed(pieces))) == Visible(Joined(pieces))
  {
    hide Visible, Joined, Strip;
    if pieces != [] {
      var before, piece := pieces[..|pieces| - 1], pieces[|pieces| - 1];
      TrimmedInk(before);
      assert pieces == before + [piece];
      VisibleStrip(piece);
      NoPiece();
      JoinedAppend(before, [piece]);
      SinglePiece(piece);
      JoinedAppend(Trimmed(before), [Strip(piece)]);
      SinglePiece(Strip(piece));
      assert Trimmed(before) + [] == Trimmed(before) && Visible(Joined(before)) + [] == Visible(Joined(before));
    }
  }

  // ---- What migrations do to a database ----

  datatype State<S> = State(schema: S, userVersion: int)

  /** Running statements one after the other; nothing if one of them raises. */
  function RunAll<S>(exec: (S, string) -> Option<S>, s: S, stmts: seq<string>): Option<S> {
    if stmts == [] then Some(s)
    else
      var r := RunAll(exec, s, stmts[..|stmts| - 1]);
      if r.None? then None else exec(r.value, stmts[|stmts| - 1])
  }

  /** The first statement runs first, and the others on what it leaves. */
  lemma {:induction false} RunsInOrder<S>(exec: (S, string) -> Option<S>, s: S, first: string, rest: seq<string>)
    ensures
      var r := exec(s, first);
      RunAll(exec, s, [first] + rest) == if r.None? then None else RunAll(exec, r.value, rest)
  {
    var all := [first] + rest;
    if rest == [] {
      assert all == [first] && all[..0] == [];
    } else {
      assert all[..|all| - 1] == [first] + rest[..|rest| - 1];
      RunsInOrder(exec, s, first, rest[..|rest| - 1]);
    }
  }

  /** Migrations one after the other, each leaving its version behind. */
  function Fold<S>(db: Sqlite<S>, s: State<S>, ms: seq<Migration>): Option<State<S>> {
    if ms == [] then Some(s)
    else
      var r, m := Fold(db, s, ms[..|ms| - 1]), ms[|ms| - 1];
      if r.None? then None
      else
        var schema := RunAll(db.exec, r.value.schema, Statements(db.complete, m.lines));
        if schema.None? then None else Some(State(schema.value, m.version))
  }

  /** The foreign parts: what a statement does, and whether a text is a complete statement. */
  datatype Sqlite<!S> = Sqlite(exec: (S, string) -> Option<S>, complete: string -> bool)

  /** What a run has to apply, from the version it finds. */
  function Pending(found: seq<Migration>, current: int): seq<Migration> {
    if found == [] then []
    else if found[0].version <= current then Pending(found[1..], current)
    else [found[0]] + Pending(found[1..], found[0].version)
  }

  function VersionAfter(current: int, applied: seq<Migration>): int {
    if applied == [] then current else applied[|applied| - 1].version
  }

  // ---- Discovery ----

  function Insert(sorted: seq<Migration>, m: Migration): seq<Migration> {
    if sorted == [] || sorted[|sorted| - 1].version <= m.version then sorted + [m]
    else Insert(sorted[..|sorted| - 1], m) + [sorted[|sorted| - 1]]
  }

  /** The migrations among the entries in a listing, stably sorted by version. */
  function Discovered(listing: seq<Entry>): seq<Migration> {
    if listing == [] then []
    else
      var found, e := Discovered(listing[..|listing| - 1]), listing[|listing| - 1];
      if e.isFile && e.isSql && e.version.Some? then Insert(found, Migration(e.version.value, e.lines)) else found
  }

  predicate Ascending(ms: seq<Migration>) {
    forall i, j :: 0 <= i < j < |ms| ==> ms[i].version <= ms[j].version
  }

  predicate Distinct(ms: seq<Migration>) {
    forall i, j :: 0 <= i < j < |ms| ==> ms[i].version != ms[j].version
  }

  lemma {:induction false} InsertKeeps(sorted: seq<Migration>, m: Migration)
    ensures multiset(Insert(sorted, m)) == multiset(sorted) + multiset{m}
  {
    if sorted != [] && sorted[|sorted| - 1].version > m.version {
      var before, last := sorted[..|sorted| - 1], sorted[|sorted| - 1];
      InsertKeeps(before, m);
      assert sorted == before + [last];
    }
  }

  /** No version is above `v`. */
  predicate UpTo(ms: seq<Migration>, v: int) {
    forall i :: 0 <= i < |ms| ==> ms[i].version <= v
  }

  lemma AscendingSnoc(ms: seq<Migration>, m: Migration)
    ensures Ascending(ms + [m]) <==> Ascending(ms) && UpTo(ms, m.version)
  {
    var all := ms + [m];
    assert forall i :: 0 <= i < |ms| ==> all[i] == ms[i];
    if Ascending(all) {
      assert forall i :: 0 <= i < |ms| ==> all[i].version <= all[|ms|].version;
    }
  }

  lemma {:induction false} InsertSorts(sorted: seq<Migration>, m: Migration, v: int)
    requires Ascending(sorted) && UpTo(sorted, v) && m.version <= v
    ensures Ascending(Insert(sorted, m)) && UpTo(Insert(sorted, m), v)
  {
    if sorted == [] {
    } else {
      var before, last := sorted[..|sorted| - 1], sorted[|sorted| - 1];
      assert sorted == before + [last];
      AscendingSnoc(before, last);
      if last.version <= m.version {
        BelowLast(sorted, m.version);
        hide Ascending;
        AscendingSnoc(sorted, m);
      } else {
        InsertSorts(before, m, last.version);
        hide Ascending;
        AscendingSnoc(Insert(before, m), last);
      }
    }
  }

  lemma BelowLast(ms: seq<Migration>, v: int)
    requires Ascending(ms) && ms != [] && ms[|ms| - 1].version <= v
    ensures UpTo(ms, v)
  {
  }

  lemma Highest(ms: seq<Migration>, v: int) returns (top: int)
    ensures UpTo(ms, top) && v <= top
  {
    top := v;
    for i := 0 to |ms|
      invariant v <= top && forall k :: 0 <= k < i ==> ms[k].version <= top
    {
      top := if ms[i].version > top then ms[i].version else top;
    }
  }

  function Eligible(listing: seq<Entry>): multiset<Migration> {
    if listing == [] then multiset{}
    else
      var e := listing[|listing| - 1];
      Eligible(listing[..|listing| - 1]) +
      (if e.isFile && e.isSql && e.version.Some? then multiset{Migration(e.version.value, e.lines)} else multiset{})
  }

  lemma {:induction false} DiscoveredSorts(listing: seq<Entry>)
    ensures Ascending(Discovered(listing)) && multiset(Discovered(listing)) == Eligible(listing)
  {
    if listing != [] {
      var before, e := listing[..|listing| - 1], listing[|listing| - 1];
      DiscoveredSorts(before);
      if e.isFile && e.isSql && e.version.Some? {
        var m := Migration(e.version.value, e.lines);
        var top := Highest(Discovered(before), m.version);
        InsertSorts(Discovered(before), m, top);
        InsertKeeps(Discovered(before), m);
      }
    }
  }

  /** The migrations of one version, in order. */
  function OfVersion(ms: seq<Migration>, v: int): seq<Migration> {
    if ms == [] then []
    else OfVersion(ms[..|ms| - 1], v) + (if ms[|ms| - 1].version == v then [ms[|ms| - 1]] else [])
  }

  function ListedAs(listing: seq<Entry>, v: int): seq<Migration> {
    if listing == [] then []
    else
      var e := listing[|listing| - 1];
      ListedAs(listing[..|listing| - 1], v) +
      (if e.isFile && e.isSql && e.version == Some(v) then [Migration(v, e.lines)] else [])
  }

  lemma OfVersionSnoc(ms: seq<Migration>, m: Migration, v: int)
    ensures OfVersion(ms + [m], v) == OfVersion(ms, v) + (if m.version == v then [m] else [])
  {
    assert (ms + [m])[..|ms|] == ms;
  }

  lemma {:induction false} InsertsBehindEquals(sorted: seq<Migration>, m: Migration, v: int)
    ensures OfVersion(Insert(sorted, m), v) == OfVersion(sorted, v) + (if m.version == v then [m] else [])
  {
    hide OfVersion;
    if sorted == [] || sorted[|sorted| - 1].version <= m.version {
      OfVersionSnoc(sorted, m, v);
    } else {
      var before, last := sorted[..|sorted| - 1], sorted[|sorted| - 1];
      InsertsBehindEquals(before, m, v);
      assert sorted == before + [last];
      OfVersionSnoc(before, last, v);
      OfVersionSnoc(Insert(before, m), last, v);
    }
  }

  /** Files with one number keep the order of the listing: the first listed is the one that a run
      applies. */
  lemma {:induction false} EqualsStayInOrder(listing: seq<Entry>, v: nat)
    ensures OfVersion(Discovered(listing), v) == ListedAs(listing, v)
  {
    hide Insert;
    if listing != [] {
      var before, e := listing[..|listing| - 1], listing[|listing| - 1];
      EqualsStayInOrder(before, v);
      if e.isFile && e.isSql && e.version.Some? {
        InsertsBehindEquals(Discovered(before), Migration(e.version.value, e.lines), v);
      }
    }
  }

  lemma LastAgrees(a: seq<Migration>, b: seq<Migration>)
    requires Ascending(a) && Ascending(b) && Distinct(a) && multiset(a) == multiset(b) && a != [] && b != []
    ensures a[|a| - 1] == b[|b| - 1]
  {
    var x, y := a[|a| - 1], b[|b| - 1];
    assert y in multiset(a) && x in multiset(b);
    var i :| 0 <= i < |a| && a[i] == y;
    var j :| 0 <= j < |b| && b[j] == x;
    assert a[i].version <= x.version && b[j].version <= y.version;
  }

  lemma Front(a: seq<Migration>)
    requires a != [] && Ascending(a)
    ensures Ascending(a[..|a| - 1]) && (Distinct(a) ==> Distinct(a[..|a| - 1]))
  {
  }

  lemma FrontKeeps(a: seq<Migration>)
    requires a != []
    ensures multiset(a[..|a| - 1]) == multiset(a) - multiset{a[|a| - 1]}
  {
    assert a == a[..|a| - 1] + [a[|a| - 1]];
  }

  lemma NoElements(a: seq<Migration>, b: seq<Migration>)
    requires multiset(a) == multiset(b)
    ensures a == [] <==> b == []
  {
    assert |multiset(a)| == |a| && |multiset(b)| == |b|;
  }

  /** With distinct versions the order in which the directory is listed does not matter. */
  lemma {:induction false} OneSorting(a: seq<Migration>, b: seq<Migration>)
    requires Ascending(a) && Ascending(b) && Distinct(a) && multiset(a) == multiset(b)
    ensures a == b
  {
    hide Ascending, Distinct;
    NoElements(a, b);
    if a != [] {
      LastAgrees(a, b);
      Front(a);
      Front(b);
      FrontKeeps(a);
      FrontKeeps(b);
      var c, d := a[..|a| - 1], b[..|b| - 1];
      OneSorting(c, d);
      assert a == c + [a[|a| - 1]] && b == d + [b[|b| - 1]];
    }
  }

  // ---- The runner ----

  /** No operation from number `a` up to number `b` raises by itself. */
  predicate NoneFails(fails: nat -> bool, a: nat, b: nat) {
    forall i :: a <= i < b ==> !fails(i)
  }

  lemma OneMore(fails: nat -> bool, a: nat, b: nat)
    requires a <= b
    ensures NoneFails(fails, a, b + 1) <==> NoneFails(fails, a, b) && !fails(b)
    ensures NoneFails(fails, a, a)
  {
  }

  lemma NoneFailsJoin(fails: nat -> bool, a: nat, b: nat, c: nat)
    requires a <= b <= c
    ensures NoneFails(fails, a, c) <==> NoneFails(fails, a, b) && NoneFails(fails, b, c)
  {
  }

  class Connection<S> {
    const db: Sqlite<S>
    /** Whether the n-th operation on the outside world raises. */
    const fails: nat -> bool
    var state: State<S>
    /** What a rollback restores, while a transaction is open. */
    var saved: Option<State<S>>
    /** Nothing stands for autocommit. */
    var isolationLevel: Option<string>
    var operations: nat

    constructor (db: Sqlite<S>, fails: nat -> bool, state: State<S>, isolationLevel: Option<string>)
      ensures this.db == db && this.fails == fails && this.state == state && saved.None?
      ensures this.isolationLevel == isolationLevel
    {
      this.db, this.fails, this.state, this.isolationLevel := db, fails, state, isolationLevel;
      saved, operations := None, 0;
    }

    method Raises() returns (r: bool)
      modifies `operations
      ensures operations == old(operations) + 1 && r == fails(old(operations))
    {
      r := fails(operations);
      operations := operations + 1;
    }

    method Begin() returns (ok: bool)
      requires saved.None?
      modifies `operations, `saved
      ensures saved == if ok then Some(state) else None
      ensures operations == old(operations) + 1 && ok == !fails(old(operations))
    {
      var r := Raises();
      ok := !r;
      if ok {
        saved := Some(state);
      }
    }

    method Execute(stmt: string) returns (ok: bool)
      modifies `operations, `state
      ensures
        var r := db.exec(old(state).schema, stmt);
        if ok then r.Some? && state == old(state).(schema := r.value) else state == old(state)
      ensures operations == old(operations) + 1
      ensures ok <==> !fails(old(operations)) && db.exec(old(state).schema, stmt).Some?
    {
      var r := Raises();
      var after := db.exec(state.schema, stmt);
      ok := !r && after.Some?;
      if ok {
        state := state.(schema := after.value);
      }
    }

    method SetUserVersion(version: int) returns (ok: bool)
      modifies `operations, `state
      ensures state == if ok then old(state).(userVersion := version) else old(state)
      ensures operations == old(operations) + 1 && ok == !fails(old(operations))
    {
      var r := Raises();
      ok := !r;
      if ok {
        state := state.(userVersion := version);
      }
    }

    method Commit() returns (ok: bool)
      modifies `operations, `saved
      ensures saved == if ok then None else old(saved)
      ensures operations == old(operations) + 1 && ok == !fails(old(operations))
    {
      var r := Raises();
      ok := !r;
      if ok {
        saved := None;
      }
    }

    method Rollback()
      requires saved.Some?
      modifies `state, `saved
      ensures state == old(saved).value && saved.None?
    {
      state, saved := saved.value, None;
    }

    /** The statements one by one, up to one that raises. */
    method ExecuteAll(stmts: seq<string>) returns (ok: bool)
      modifies `operations, `state
      ensures old(operations) <= operations && state.userVersion == old(state).userVersion
      ensures
        var r := RunAll(db.exec, old(state).schema, stmts);
        && (ok <==> NoneFails(fails, old(operations), operations) && r.Some?)
        && (ok ==> state.schema == r.value)
    {
      ok := true;
      var i := 0;
      while i < |stmts| && ok
        invariant i <= |stmts| && old(operations) <= operations && state.userVersion == old(state).userVersion
        invariant
          var r := RunAll(db.exec, old(state).schema, stmts[..i]);
          && (ok <==> NoneFails(fails, old(operations), operations) && r.Some?)
          && (ok ==> state.schema == r.value)
      {
        assert stmts[..i + 1][..i] == stmts[..i];
        OneMore(fails, old(operations), operations);
        ok := Execute(stmts[i]);
        i := i + 1;
      }
      RunAllStops(db.exec, old(state).schema, stmts, i);
      assert ok ==> stmts[..i] == stmts;
    }

    /** The inside of a transaction: it is committed, or rolled back if anything raises. */
    method Finish(version: int, stmts: seq<string>) returns (ok: bool)
      requires saved == Some(state)
      modifies `operations, `state, `saved
      ensures saved.None? && old(operations) <= operations
      ensures
        var r := RunAll(db.exec, old(state).schema, stmts);
        && (ok <==> NoneFails(fails, old(operations), operations) && r.Some?)
        && state == if ok then State(r.value, version) else old(state)
    {
      hide RunAll, NoneFails;
      ok := ExecuteAll(stmts);
      if ok {
        OneMore(fails, old(operations), operations);
        ok := SetUserVersion(version);
      }
      if ok {
        OneMore(fails, old(operations), operations);
        ok := Commit();
      }
      if !ok {
        Rollback();
      }
    }

    /** All of a migration or nothing, and the isolation level as it was. It is applied exactly
        if nothing on the way raises. */
    method ApplyOne(version: int, lines: seq<string>) returns (ok: bool)
      requires saved.None?
      modifies this
      ensures saved.None? && isolationLevel == old(isolationLevel)
      ensures
        if !ok then state == old(state)
        else Fold(db, old(state), [Migration(version, lines)]) == Some(state)
      ensures old(operations) <= operations
      ensures ok <==> NoneFails(fails, old(operations), operations) && Fold(db, old(state), [Migration(version, lines)]).Some?
    {
      SingleFold(db, old(state), Migration(version, lines));
      hide Statements, Fold, RunAll, NoneFails;
      OneMore(fails, operations, operations);
      var originalIsolation := isolationLevel;
      isolationLevel := None;
      ok := Begin();
      if ok {
        ghost var begun := operations;
        var stmts := SplitStatements(db.complete, lines);
        ok := Finish(version, stmts);
        NoneFailsJoin(fails, old(operations), begun, operations);
      }
      isolationLevel := originalIsolation;
    }

    /** A run applies the pending migrations from the first on, all of them unless it raises. */
    method ApplyMigrations(listing: seq<Entry>) returns (ok: bool, ghost applied: nat)
      requires saved.None?
      modifies this
      ensures saved.None? && isolationLevel == old(isolationLevel)
      ensures Ran(db, Discovered(listing), old(state), state, ok, applied)
      ensures old(operations) <= operations
      ensures
        var all := Fold(db, old(state), Pending(Discovered(listing), old(state).userVersion));
        ok <==> NoneFails(fails, old(operations), operations) && all.Some?
    {
      hide Fold, Discovered, Pending, NoneFails;
      OneMore(fails, operations, operations);
      var current := state.userVersion;
      var found := Discovered(listing);
      ghost var pending := Pending(found, current);
      var i := 0;
      ok, applied := true, 0;
      NothingFolded(db, state);
      while i < |found| && ok
        invariant i <= |found| && saved.None? && isolationLevel == old(isolationLevel)
        invariant applied <= |pending| && Fold(db, old(state), pending[..applied]) == Some(state)
        invariant state.userVersion == VersionAfter(old(state).userVersion, pending[..applied])
        invariant ok ==> current == state.userVersion && Pending(found[i..], current) == pending[applied..]
        invariant !ok ==> applied < |pending|
        invariant old(operations) <= operations && (ok ==> NoneFails(fails, old(operations), operations))
        invariant !ok ==> !NoneFails(fails, old(operations), operations) || Fold(db, old(state), pending).None?
      {
        var m := found[i];
        PendingNext(found, i, current);
        if m.version > current {
          NextOne(pending, applied, m, Pending(found[i + 1..], m.version));
          FoldSnoc(db, old(state), pending[..applied], m);
          FoldStops(db, old(state), pending, applied + 1);
          OneMore(fails, old(operations), operations);
          var unreadable := Raises();
          if unreadable {
            ok := false;
          } else {
            ghost var reached := operations;
            ok := ApplyOne(m.version, m.lines);
            NoneFailsJoin(fails, old(operations), reached, operations);
          }
          if ok {
            applied := applied + 1;
            current := m.version;
          }
        }
        i := i + 1;
      }
      NoneLeft(pending, applied, found, i, current);
    }
  }

  lemma PendingNext(found: seq<Migration>, i: nat, current: int)
    requires i < |found|
    ensures Pending(found[i..], current) ==
            if found[i].version <= current then Pending(found[i + 1..], current)
            else [found[i]] + Pending(found[i + 1..], found[i].version)
  {
    assert found[i..][1..] == found[i + 1..];
  }

  lemma NextOne(pending: seq<Migration>, n: nat, m: Migration, rest: seq<Migration>)
    requires n <= |pending| && pending[n..] == [m] + rest
    ensures n < |pending| && pending[n] == m && pending[n + 1..] == rest && pending[..n + 1] == pending[..n] + [m]
  {
    assert pending[n..][1..] == pending[n + 1..] && pending[n..][0] == m;
  }

  lemma NoneLeft(pending: seq<Migration>, n: nat, found: seq<Migration>, i: nat, current: int)
    requires n <= |pending| && i <= |found|
    ensures i == |found| && Pending(found[i..], current) == pending[n..] ==> n == |pending| && pending[..n] == pending
  {
  }

  lemma {:induction false} RunAllStops<S>(exec: (S, string) -> Option<S>, s: S, stmts: seq<string>, i: nat)
    requires i <= |stmts|
    ensures RunAll(exec, s, stmts[..i]).None? ==> RunAll(exec, s, stmts).None?
  {
    if i == |stmts| {
      assert stmts[..i] == stmts;
    } else {
      assert stmts[..|stmts| - 1][..i] == stmts[..i];
      RunAllStops(exec, s, stmts[..|stmts| - 1], i);
    }
  }

  lemma {:induction false} FoldStops<S>(db: Sqlite<S>, s: State<S>, ms: seq<Migration>, i: nat)
    requires i <= |ms|
    ensures Fold(db, s, ms[..i]).None? ==> Fold(db, s, ms).None?
  {
    if i == |ms| {
      assert ms[..i] == ms;
    } else {
      assert ms[..|ms| - 1][..i] == ms[..i];
      FoldStops(db, s, ms[..|ms| - 1], i);
    }
  }

  lemma SingleFold<S>(db: Sqlite<S>, s: State<S>, m: Migration)
    ensures
      var r := RunAll(db.exec, s.schema, Statements(db.complete, m.lines));
      Fold(db, s, [m]) == if r.None? then None else Some(State(r.value, m.version))
  {
    assert [m][..0] == [];
  }

  lemma NothingFolded<S>(db: Sqlite<S>, s: State<S>)
    ensures Fold(db, s, []) == Some(s)
  {
  }

  lemma FoldSnoc<S>(db: Sqlite<S>, s: State<S>, ms: seq<Migration>, m: Migration)
    ensures
      var r := Fold(db, s, ms);
      && Fold(db, s, ms + [m]) == (if r.None? then None else Fold(db, r.value, [m]))
      && (Fold(db, s, ms + [m]).Some? ==> Fold(db, s, ms + [m]).value.userVersion == m.version)
  {
    assert (ms + [m])[..|ms|] == ms && [m][..0] == [];
  }

  // ---- Any number of runs ----

  /** A run that went from `before` to `after`. */
  ghost predicate Ran<S>(db: Sqlite<S>, found: seq<Migration>, before: State<S>, after: State<S>, ok: bool, applied: nat) {
    var pending := Pending(found, before.userVersion);
    && applied <= |pending| && Fold(db, before, pending[..applied]) == Some(after)
    && after.userVersion == VersionAfter(before.userVersion, pending[..applied])
    && (ok <==> applied == |pending|)
  }

  /** After an interrupted run exactly the rest is pending, for any list and any point. */
  lemma {:induction false} PendingResumes(found: seq<Migration>, current: int, k: nat)
    requires k <= |Pending(found, current)|
    ensures
      var pending := Pending(found, current);
      var now := VersionAfter(current, pending[..k]);
      now >= current && Pending(found, now) == pending[k..]
  {
    if found != [] {
      var rest, v := found[1..], found[0].version;
      if v <= current {
        PendingResumes(rest, current, k);
      } else {
        var later := Pending(rest, v);
        if k > 0 {
          PendingResumes(rest, v, k - 1);
          assert ([found[0]] + later)[..k] == [found[0]] + later[..k - 1];
        }
      }
    }
  }

  lemma {:induction false} FoldAppend<S>(db: Sqlite<S>, s: State<S>, a: seq<Migration>, b: seq<Migration>)
    requires Fold(db, s, a).Some?
    ensures Fold(db, s, a + b) == Fold(db, Fold(db, s, a).value, b)
  {
    if b == [] {
      assert a + b == a;
    } else {
      var front, m := b[..|b| - 1], b[|b| - 1];
      assert a + b == (a + front) + [m] && b == front + [m];
      hide Fold;
      FoldAppend(db, s, a, front);
      FoldSnoc(db, s, a + front, m);
      FoldSnoc(db, Fold(db, s, a).value, front, m);
    }
  }

  /** Two runs in succession are one. */
  lemma RunsCompose<S>(db: Sqlite<S>, found: seq<Migration>, s0: State<S>, s1: State<S>, s2: State<S>,
                       ok1: bool, ok2: bool, n1: nat, n2: nat)
    requires Ran(db, found, s0, s1, ok1, n1) && Ran(db, found, s1, s2, ok2, n2)
    ensures Ran(db, found, s0, s2, ok2, n1 + n2)
  {
    hide Fold;
    var pending := Pending(found, s0.userVersion);
    PendingResumes(found, s0.userVersion, n1);
    FoldAppend(db, s0, pending[..n1], pending[n1..][..n2]);
    assert pending[..n1] + pending[n1..][..n2] == pending[..n1 + n2];
  }

  /** One run after the other on one directory, however it is listed: `runs[i]` tells the
      listing, the state after the run, whether it succeeded and what it applied. */
  datatype Run<S> = Run(listing: seq<Entry>, after: State<S>, ok: bool, applied: nat)

  ghost predicate Runs<S>(db: Sqlite<S>, start: State<S>, runs: seq<Run<S>>) {
    runs == [] ||
    var before, r := runs[..|runs| - 1], runs[|runs| - 1];
    && Runs(db, start, before)
    && Ran(db, Discovered(r.listing), Latest(start, before), r.after, r.ok, r.applied)
  }

  function Latest<S>(start: State<S>, runs: seq<Run<S>>): State<S> {
    if runs == [] then start else runs[|runs| - 1].after
  }

  function TotalApplied<S>(runs: seq<Run<S>>): nat {
    if runs == [] then 0 else TotalApplied(runs[..|runs| - 1]) + runs[|runs| - 1].applied
  }

  /** After any number of runs, each failing anywhere, the database is where one run would
      have stopped; after a run that succeeds, where one uninterrupted run ends. */
  lemma {:induction false} CrashesDoNotMatter<S>(db: Sqlite<S>, start: State<S>, runs: seq<Run<S>>, listing: seq<Entry>)
    requires Runs(db, start, runs) && runs != []
    requires Distinct(Discovered(listing))
    requires forall r :: r in runs ==> Eligible(r.listing) == Eligible(listing)
    ensures Ran(db, Discovered(listing), start, Latest(start, runs), runs[|runs| - 1].ok, TotalApplied(runs))
  {
    hide Ran, Distinct, Discovered, Eligible, Ascending;
    var before, r := runs[..|runs| - 1], runs[|runs| - 1];
    assert r in runs;
    DiscoveredSorts(listing);
    DiscoveredSorts(r.listing);
    OneSorting(Discovered(listing), Discovered(r.listing));
    if before != [] {
      assert forall x :: x in before ==> x in runs;
      CrashesDoNotMatter(db, start, before, listing);
      RunsCompose(db, Discovered(listing), start, Latest(start, before), r.after,
                  before[|before| - 1].ok, r.ok, TotalApplied(before), r.applied);
    }
  }

  /** Every version is above `v`. */
  predicate Above(ms: seq<Migration>, v: int) {
    forall i :: 0 <= i < |ms| ==> ms[i].version > v
  }

  lemma AboveCons(ms: seq<Migration>, v: int)
    requires ms != []
    ensures Above(ms, v) <==> ms[0].version > v && Above(ms[1..], v)
  {
    forall i | 1 <= i < |ms| ensures ms[i] == ms[1..][i - 1] {
    }
  }

  lemma TailAscends(ms: seq<Migration>)
    requires ms != [] && Ascending(ms)
    ensures Ascending(ms[1..])
  {
  }

  lemma DistinctTail(ms: seq<Migration>)
    requires ms != [] && Ascending(ms) && Distinct(ms)
    ensures Distinct(ms[1..]) && Above(ms[1..], ms[0].version)
  {
    forall i | 0 <= i < |ms| - 1 ensures ms[1..][i].version > ms[0].version {
      assert ms[1..][i] == ms[i + 1];
    }
  }

  lemma DistinctCons(ms: seq<Migration>)
    requires ms != [] && Distinct(ms[1..]) && Above(ms[1..], ms[0].version)
    ensures Distinct(ms)
  {
    forall i, j | 0 <= i < j < |ms| ensures ms[i].version != ms[j].version {
      assert ms[j] == ms[1..][j - 1];
      if i > 0 {
        assert ms[i] == ms[1..][i - 1];
      }
    }
  }

  /** A run from a given version applies the whole list exactly if its versions are distinct
      and above that one. */
  lemma {:induction false} AllPending(found: seq<Migration>, current: int)
    requires Ascending(found)
    ensures Pending(found, current) == found <==> Distinct(found) && Above(found, current)
  {
    PendingIsShort(found, current);
    if found != [] {
      var m, rest := found[0], found[1..];
      hide Ascending, Distinct, Above;
      AboveCons(found, current);
      TailAscends(found);
      PendingIsShort(rest, current);
      AllPending(rest, m.version);
      if Distinct(found) {
        DistinctTail(found);
      }
      if m.version > current {
        assert found == [m] + rest;
        SameTail(m, Pending(rest, m.version), rest);
        if Pending(rest, m.version) == rest {
          DistinctCons(found);
          AboveAll(rest, m.version, current);
        }
      }
    }
  }

  lemma AboveAll(ms: seq<Migration>, v: int, w: int)
    requires Above(ms, v) && w <= v
    ensures Above(ms, w)
  {
  }

  lemma SameTail(m: Migration, a: seq<Migration>, b: seq<Migration>)
    ensures [m] + a == [m] + b <==> a == b
  {
    assert ([m] + a)[1..] == a && ([m] + b)[1..] == b;
  }

  /** What is pending is above the version found. */
  lemma {:induction false} NeverPending(found: seq<Migration>, current: int)
    ensures Above(Pending(found, current), current)
  {
    if found != [] {
      var m, rest := found[0], found[1..];
      NeverPending(rest, current);
      NeverPending(rest, m.version);
    }
  }

  /** A migration numbered zero is never applied to a fresh database, whose version is zero: the
      run succeeds without it. */
  lemma ZeroIsSkipped<S>(db: Sqlite<S>, schema: S, lines: seq<string>)
    ensures
      var listing, blank := [Entry(true, true, Some(0), lines)], State(schema, 0);
      && Discovered(listing) == [Migration(0, lines)]
      && Ran(db, Discovered(listing), blank, blank, true, 0)
  {
    var listing := [Entry(true, true, Some(0), lines)];
    assert listing[..0] == [];
    assert Discovered(listing) == Insert([], Migration(0, lines)) == [Migration(0, lines)];
    assert [Migration(0, lines)][1..] == [];
  }

  /** Of two migrations with one number the second is left out. */
  lemma SecondIsSkipped(v: nat, a: seq<string>, b: seq<string>)
    ensures Pending([Migration(v + 1, a), Migration(v + 1, b)], v) == [Migration(v + 1, a)]
  {
    var found := [Migration(v + 1, a), Migration(v + 1, b)];
    assert found[1..] == [found[1]];
    assert [found[1]][1..] == [];
    assert Pending([found[1]], v + 1) == [];
  }

  lemma {:induction false} PendingIsShort(found: seq<Migration>, current: int)
    ensures |Pending(found, current)| <= |found|
  {
    if found != [] {
      PendingIsShort(found[1..], current);
      PendingIsShort(found[1..], found[0].version);
    }
  }
}
