/** `LlamaClient::onReadyRead` and the callback table behind it
    (daemon/src/llama_client.cpp).  The JSON syntax is left uninterpreted: a parser is any
    function from bytes to an optional value; what is read out of the value is modelled. */
module StreamReader {
  import opened Wrappers
  import opened Framing

  type RequestId = string
  type Token = string

  datatype Json =
    | Null
    | Bool(b: bool)
    | Number(value: real)
    | Text(text: string)
    | Array(items: seq<Json>)
    | Object(members: map<string, Json>)

  /** `None` is a syntax error. */
  type Parser = Bytes -> Option<Json>

  /** `value(name)`; anything but an object has no members. */
  function Member(j: Json, name: string): Json {
    if j.Object? && name in j.members then j.members[name] else Null
  }

  /** `toString()`; anything but a text reads as empty. */
  function TextOf(j: Json): string {
    if j.Text? then j.text else ""
  }

  /** `toArray().first()`; anything but a non-empty array has no first item. */
  function FirstItem(j: Json): Json {
    if j.Array? && j.items != [] then j.items[0] else Null
  }

  function TokenOf(j: Json): Token {
    var choice := FirstItem(Member(j, "choices"));
    var content := TextOf(Member(Member(choice, "delta"), "content"));
    if content != "" then content else TextOf(Member(choice, "text"))
  }

  /** A `std::function`, which may be empty. */
  datatype Callback = NoCallback | Callback(handle: nat)

  datatype Call = Call(callback: Callback, id: RequestId, token: Token)

  datatype Message = Ignored | Done | Event(id: RequestId, token: Token)

  /** The callback table, the id of the latest event, and every callback call so far. */
  datatype Table = Table(callbacks: map<RequestId, Callback>, lastEventId: RequestId, calls: seq<Call>)

  datatype Reader = Reader(table: Table, buffer: Bytes)

  const DATA_PREFIX: Bytes := [100, 97, 116, 97, 58, 32]
  const DONE_MARK: Bytes := [91, 68, 79, 78, 69, 93]

  // ---- One frame -----------------------------------------------------------------

  predicate IsSpace(b: byte) {
    9 <= b <= 13 || b == 32
  }

  function TrimLeft(b: Bytes): Bytes {
    if b != [] && IsSpace(b[0]) then TrimLeft(b[1..]) else b
  }

  function TrimRight(b: Bytes): Bytes {
    if b != [] && IsSpace(b[|b| - 1]) then TrimRight(b[..|b| - 1]) else b
  }

  /** `QByteArray::trimmed`. */
  function Trimmed(b: Bytes): Bytes {
    TrimRight(TrimLeft(b))
  }

  function Classify(parse: Parser, frame: Bytes): Message {
    if !(DATA_PREFIX <= frame) then Ignored
    else
      var data := Trimmed(frame[|DATA_PREFIX|..]);
      if data == DONE_MARK then Done
      else
        Meaning(parse(data))
  }

  /** An event of the server is an object with an id and choices. */
  function Meaning(doc: Option<Json>): Message {
    if doc.None? || !doc.value.Object? then Ignored
    else Event(TextOf(Member(doc.value, "id")), TokenOf(doc.value))
  }

  ghost predicate AllSpace(b: Bytes) {
    forall i :: 0 <= i < |b| ==> IsSpace(b[i])
  }

  lemma {:induction false} TrimLeftStops(before: Bytes, core: Bytes)
    requires AllSpace(before) && (core == [] || !IsSpace(core[0]))
    ensures TrimLeft(before + core) == core
  {
    if before == [] {
      assert before + core == core;
    } else {
      assert (before + core)[1..] == before[1..] + core;
      TrimLeftStops(before[1..], core);
    }
  }

  lemma {:induction false} TrimRightStops(core: Bytes, after: Bytes)
    requires AllSpace(after) && (core == [] || !IsSpace(core[|core| - 1]))
    ensures TrimRight(core + after) == core
  {
    if after == [] {
      assert core + after == core;
    } else {
      assert (core + after)[..|core + after| - 1] == core + after[..|after| - 1];
      TrimRightStops(core, after[..|after| - 1]);
    }
  }

  predicate NoSpaceAtEnds(b: Bytes) {
    b == [] || (!IsSpace(b[0]) && !IsSpace(b[|b| - 1]))
  }

  /** Trimming takes off white space at both ends, all of it, and nothing else. */
  lemma {:induction false} TrimmedIsExact(before: Bytes, core: Bytes, after: Bytes)
    requires AllSpace(before) && AllSpace(after) && NoSpaceAtEnds(core)
    ensures Trimmed(before + core + after) == core
  {
    assert before + core + after == before + (core + after);
    if core == [] {
      assert before + (core + after) == (before + after) + [];
      TrimLeftStops(before + after, []);
    } else {
      TrimLeftStops(before, core + after);
      TrimRightStops(core, after);
    }
  }

  lemma {:induction false} LeadingSpace(b: Bytes) returns (before: Bytes)
    ensures b == before + TrimLeft(b) && AllSpace(before)
    ensures TrimLeft(b) == [] || !IsSpace(TrimLeft(b)[0])
  {
    before := [];
    if b != [] && IsSpace(b[0]) {
      var rest := LeadingSpace(b[1..]);
      before := [b[0]] + rest;
    }
  }

  lemma {:induction false} TrailingSpace(b: Bytes) returns (after: Bytes)
    ensures b == TrimRight(b) + after && AllSpace(after)
    ensures TrimRight(b) == [] || !IsSpace(TrimRight(b)[|TrimRight(b)| - 1])
  {
    after := [];
    if b != [] && IsSpace(b[|b| - 1]) {
      var rest := TrailingSpace(b[..|b| - 1]);
      after := rest + [b[|b| - 1]];
    }
  }

  /** Every payload is of that form, so the two lemmas together say what trimming is. */
  lemma {:induction false} TrimmedDecomposes(b: Bytes) returns (before: Bytes, after: Bytes)
    ensures b == before + Trimmed(b) + after
    ensures AllSpace(before) && AllSpace(after) && NoSpaceAtEnds(Trimmed(b))
  {
    before := LeadingSpace(b);
    after := TrailingSpace(TrimLeft(b));
  }

  /** White space around the payload of an event does not matter, and only frames with the
      event prefix matter at all. */
  lemma {:induction false} PaddingIsIgnored(parse: Parser, before: Bytes, core: Bytes, after: Bytes)
    requires AllSpace(before) && AllSpace(after) && NoSpaceAtEnds(core)
    ensures Classify(parse, DATA_PREFIX + before + core + after) ==
            if core == DONE_MARK then Done else Meaning(parse(core))
    ensures forall frame :: !(DATA_PREFIX <= frame) ==> Classify(parse, frame) == Ignored
  {
    var frame := DATA_PREFIX + before + core + after;
    assert frame[|DATA_PREFIX|..] == before + core + after;
    TrimmedIsExact(before, core, after);
  }

  /** One message: an event calls the callback of its id; `[DONE]` drops the callback of the
      latest event, whichever request that was. */
  function React(t: Table, m: Message): Table {
    match m
    case Ignored => t
    case Done =>
      if t.lastEventId == "" then t
      else t.(callbacks := t.callbacks - {t.lastEventId}, lastEventId := "")
    case Event(id, token) =>
      var cb := if id in t.callbacks then t.callbacks[id] else NoCallback;
      t.(lastEventId := id,
         calls := if cb.Callback? && token != "" then t.calls + [Call(cb, id, token)] else t.calls)
  }

  // ---- Many frames ---------------------------------------------------------------

  /** The table after the first `n` messages. */
  function ReactTo(t: Table, ms: seq<Message>, n: nat): Table
    requires n <= |ms|
  {
    if n == 0 then t else React(ReactTo(t, ms, n - 1), ms[n - 1])
  }

  function ReactAll(t: Table, ms: seq<Message>): Table {
    ReactTo(t, ms, |ms|)
  }

  function Messages(parse: Parser, frames: seq<Bytes>): seq<Message> {
    seq(|frames|, i requires 0 <= i < |frames| => Classify(parse, frames[i]))
  }

  /** What the reader becomes once it has worked through a buffer. */
  function Drain(parse: Parser, t: Table, buffer: Bytes): Reader {
    var s := SplitFrames(buffer);
    Reader(ReactAll(t, Messages(parse, s.frames)), s.rest)
  }

  /** One read from the socket. */
  function Feed(parse: Parser, r: Reader, chunk: Bytes): Reader {
    Drain(parse, r.table, r.buffer + chunk)
  }

  function FeedAll(parse: Parser, r: Reader, chunks: seq<Bytes>): Reader
    decreases |chunks|
  {
    if chunks == [] then r else FeedAll(parse, Feed(parse, r, chunks[0]), chunks[1..])
  }

  lemma {:induction false} ReactToPrefix(t: Table, a: seq<Message>, b: seq<Message>, n: nat)
    requires n <= |a|
    ensures ReactTo(t, a + b, n) == ReactTo(t, a, n)
  {
    if n > 0 {
      ReactToPrefix(t, a, b, n - 1);
    }
  }

  lemma {:induction false} ReactToAppend(t: Table, a: seq<Message>, b: seq<Message>, n: nat)
    requires n <= |b|
    ensures ReactTo(t, a + b, |a| + n) == ReactTo(ReactAll(t, a), b, n)
  {
    if n == 0 {
      ReactToPrefix(t, a, b, |a|);
    } else {
      ReactToAppend(t, a, b, n - 1);
    }
  }

  lemma ReactAllAppend(t: Table, a: seq<Message>, b: seq<Message>)
    ensures ReactAll(t, a + b) == ReactAll(ReactAll(t, a), b)
  {
    ReactToAppend(t, a, b, |b|);
  }

  // ---- Independence from how the bytes were cut -----------------------------------

  lemma MessagesAppend(parse: Parser, a: seq<Bytes>, b: seq<Bytes>)
    ensures Messages(parse, a + b) == Messages(parse, a) + Messages(parse, b)
  {
  }

  lemma DrainResumes(parse: Parser, t: Table, x: Bytes, y: Bytes)
    ensures var r := Drain(parse, t, x);
            Drain(parse, r.table, r.buffer + y) == Drain(parse, t, x + y)
  {
    var first := SplitFrames(x);
    var second := SplitFrames(first.rest + y);
    SplitResumes(x, y);
    MessagesAppend(parse, first.frames, second.frames);
    ReactAllAppend(t, Messages(parse, first.frames), Messages(parse, second.frames));
  }

  /** Two reads in a row are one read of both chunks. */
  lemma {:induction false} FeedTwice(parse: Parser, r: Reader, a: Bytes, b: Bytes)
    ensures Feed(parse, Feed(parse, r, a), b) == Feed(parse, r, a + b)
  {
    DrainResumes(parse, r.table, r.buffer + a, b);
    assert (r.buffer + a) + b == r.buffer + (a + b);
  }

  lemma FeedNothing(parse: Parser, r: Reader)
    requires HasNoSeparator(r.buffer)
    ensures Feed(parse, r, []) == r
  {
    assert r.buffer + [] == r.buffer;
    SplitIsExact(r.buffer, [], r.buffer);
    assert Encode([]) + r.buffer == r.buffer;
  }

  /** Chunk independence: any sequence of reads leaves the same calls, the same callback
      table, the same latest id and the same leftover bytes as one read of everything. */
  lemma {:induction false} ChunksDoNotMatter(parse: Parser, r: Reader, chunks: seq<Bytes>)
    requires HasNoSeparator(r.buffer)
    ensures FeedAll(parse, r, chunks) == Feed(parse, r, Flatten(chunks))
    ensures HasNoSeparator(FeedAll(parse, r, chunks).buffer)
    decreases |chunks|
  {
    if chunks == [] {
      FeedNothing(parse, r);
    } else {
      SplitLosesNothing(r.buffer + chunks[0]);
      ChunksDoNotMatter(parse, Feed(parse, r, chunks[0]), chunks[1..]);
      FeedTwice(parse, r, chunks[0], Flatten(chunks[1..]));
    }
  }

  // ---- Exact delivery ------------------------------------------------------------

  /** The id of the latest event among the first `n` messages since the last `[DONE]`. */
  function LatestId(last: RequestId, ms: seq<Message>, n: nat): RequestId
    requires n <= |ms|
  {
    if n == 0 then last
    else
      match ms[n - 1]
      case Done => ""
      case Event(id, _) => id
      case Ignored => LatestId(last, ms, n - 1)
  }

  /** Message `k` is the `[DONE]` that ends request `id`. */
  predicate Closes(last: RequestId, ms: seq<Message>, k: nat, id: RequestId)
    requires k < |ms|
  {
    ms[k].Done? && LatestId(last, ms, k) == id
  }

  /** The first of the first `n` messages that ends `id`, or `n`. */
  function FirstClose(last: RequestId, ms: seq<Message>, n: nat, id: RequestId): (c: nat)
    requires n <= |ms|
    ensures c <= n
    ensures c < n ==> Closes(last, ms, c, id)
    ensures forall j: nat :: j < c ==> !Closes(last, ms, j, id)
  {
    if n == 0 then 0
    else
      var c := FirstClose(last, ms, n - 1, id);
      if c < n - 1 || Closes(last, ms, n - 1, id) then c else n
  }

  /** The calls that the events of `id` among the first `n` messages ask for. */
  function Wanted(cb: Callback, id: RequestId, ms: seq<Message>, n: nat): seq<Call>
    requires n <= |ms|
  {
    if n == 0 then []
    else
      var m := ms[n - 1];
      Wanted(cb, id, ms, n - 1) + if m.Event? && m.id == id && m.token != "" then [Call(cb, id, m.token)] else []
  }

  function CallsOf(calls: seq<Call>, id: RequestId): seq<Call> {
    if calls == [] then []
    else
      CallsOf(calls[..|calls| - 1], id)
      + if calls[|calls| - 1].id == id then [calls[|calls| - 1]] else []
  }

  lemma {:induction false} LatestIdTracked(t: Table, ms: seq<Message>, n: nat)
    requires n <= |ms|
    ensures ReactTo(t, ms, n).lastEventId == LatestId(t.lastEventId, ms, n)
  {
    if n > 0 {
      LatestIdTracked(t, ms, n - 1);
    }
  }

  lemma CallsAfterReact(t: Table, m: Message, id: RequestId)
    ensures CallsOf(React(t, m).calls, id) ==
            CallsOf(t.calls, id) +
            if m.Event? && m.id == id && m.token != "" && id in t.callbacks && t.callbacks[id].Callback?
            then [Call(t.callbacks[id], id, m.token)] else []
  {
  }

  /** A callback stays registered, unchanged, exactly until the first `[DONE]` that ends it. */
  lemma {:induction false} RegisteredUntilClosed(t: Table, ms: seq<Message>, n: nat, id: RequestId)
    requires n <= |ms| && id != "" && id in t.callbacks
    ensures var t' := ReactTo(t, ms, n);
            && (id in t'.callbacks <==> FirstClose(t.lastEventId, ms, n, id) == n)
            && (id in t'.callbacks ==> t'.callbacks[id] == t.callbacks[id])
  {
    if n > 0 {
      RegisteredUntilClosed(t, ms, n - 1, id);
      LatestIdTracked(t, ms, n - 1);
    }
  }

  /** Exact delivery under any interleaving: a registered callback is called, in order, for
      the non-empty tokens of its events up to the first `[DONE]` that ends its request, and
      for nothing afterwards. */
  lemma {:induction false} DeliveryIsExact(t: Table, ms: seq<Message>, n: nat, id: RequestId)
    requires n <= |ms|
    requires id != "" && id in t.callbacks && t.callbacks[id].Callback?
    ensures CallsOf(ReactTo(t, ms, n).calls, id)
         == CallsOf(t.calls, id) + Wanted(t.callbacks[id], id, ms, FirstClose(t.lastEventId, ms, n, id))
  {
    if n > 0 {
      DeliveryIsExact(t, ms, n - 1, id);
      RegisteredUntilClosed(t, ms, n - 1, id);
      CallsAfterReact(ReactTo(t, ms, n - 1), ms[n - 1], id);
    }
  }

  /** An id that is not registered gets no call. */
  lemma {:induction false} NoDeliveryUnregistered(t: Table, ms: seq<Message>, n: nat, id: RequestId)
    requires n <= |ms| && id !in t.callbacks
    ensures id !in ReactTo(t, ms, n).callbacks
    ensures CallsOf(ReactTo(t, ms, n).calls, id) == CallsOf(t.calls, id)
  {
    if n > 0 {
      NoDeliveryUnregistered(t, ms, n - 1, id);
      CallsAfterReact(ReactTo(t, ms, n - 1), ms[n - 1], id);
    }
  }

  lemma {:induction false} WantedStops(cb: Callback, id: RequestId, ms: seq<Message>, c: nat, n: nat)
    requires c <= n <= |ms|
    ensures Wanted(cb, id, ms, c) <= Wanted(cb, id, ms, n)
    ensures Wanted(cb, id, ms, c) == Wanted(cb, id, ms, n) <==>
            forall j :: c <= j < n ==> !(ms[j].Event? && ms[j].id == id && ms[j].token != "")
    decreases n
  {
    if c < n {
      WantedStops(cb, id, ms, c, n - 1);
    }
  }

  /** A request receives all of its tokens exactly when none of them comes after the first
      `[DONE]` that ends it. */
  lemma FullDeliveryCondition(t: Table, ms: seq<Message>, id: RequestId)
    requires id != "" && id in t.callbacks && t.callbacks[id].Callback?
    ensures CallsOf(ReactAll(t, ms).calls, id)
              == CallsOf(t.calls, id) + Wanted(t.callbacks[id], id, ms, |ms|)
            <==>
            forall k, j :: 0 <= k <= j < |ms| && Closes(t.lastEventId, ms, k, id) ==>
              !(ms[j].Event? && ms[j].id == id && ms[j].token != "")
  {
    var c := FirstClose(t.lastEventId, ms, |ms|, id);
    DeliveryIsExact(t, ms, |ms|, id);
    WantedStops(t.callbacks[id], id, ms, c, |ms|);
    if CallsOf(ReactAll(t, ms).calls, id) == CallsOf(t.calls, id) + Wanted(t.callbacks[id], id, ms, |ms|) {
      assert Wanted(t.callbacks[id], id, ms, c) == Wanted(t.callbacks[id], id, ms, |ms|);
    }
  }

  lemma ReactSnoc(t: Table, ms: seq<Message>, m: Message)
    ensures ReactAll(t, ms + [m]) == React(ReactAll(t, ms), m)
  {
    ReactToPrefix(t, ms, [m], |ms|);
  }

  lemma {:induction false} ReactToFour(t: Table, a: Message, b: Message, c: Message, d: Message)
    ensures ReactAll(t, [a, b, c, d]) == React(React(React(React(t, a), b), c), d)
  {
    ReactSnoc(t, [], a);
    ReactSnoc(t, [a], b);
    ReactSnoc(t, [a, b], c);
    ReactSnoc(t, [a, b, c], d);
    assert [] + [a] == [a] && [a] + [b] == [a, b] && [a, b] + [c] == [a, b, c] && [a, b, c] + [d] == [a, b, c, d];
  }

  /** Interleaved streams do lose tokens: the `[DONE]` of `a` ends `b` when `b` spoke last,
      in whatever state they find the table. */
  lemma {:induction false} InterleavingLosesTokens(t: Table, a: RequestId, b: RequestId, x: Token, y: Token, z: Token)
    requires a != "" && b != "" && a != b && y != "" && z != ""
    requires b in t.callbacks && t.callbacks[b].Callback?
    ensures var t' := ReactAll(t, [Event(a, x), Event(b, y), Done, Event(b, z)]);
            && CallsOf(t'.calls, b) == CallsOf(t.calls, b) + [Call(t.callbacks[b], b, y)]
            && b !in t'.callbacks
            && (a in t.callbacks ==> a in t'.callbacks)
  {
    ReactToFour(t, Event(a, x), Event(b, y), Done, Event(b, z));
    var t1 := React(t, Event(a, x));
    var t2 := React(t1, Event(b, y));
    var t3 := React(t2, Done);
    CallsAfterReact(t, Event(a, x), b);
    CallsAfterReact(t1, Event(b, y), b);
    CallsAfterReact(t3, Event(b, z), b);
  }

  // ---- Streams one after the other ------------------------------------------------

  /** A request with the tokens of its events. */
  datatype Stream = Stream(id: RequestId, tokens: seq<Token>)

  function StreamMessages(s: Stream): seq<Message> {
    seq(|s.tokens|, i requires 0 <= i < |s.tokens| => Event(s.id, s.tokens[i])) + [Done]
  }

  function AllMessages(ss: seq<Stream>): seq<Message> {
    if ss == [] then [] else StreamMessages(ss[0]) + AllMessages(ss[1..])
  }

  /** One call per non-empty token. */
  function TokenCalls(cb: Callback, id: RequestId, tokens: seq<Token>): seq<Call> {
    if tokens == [] then []
    else
      TokenCalls(cb, id, tokens[..|tokens| - 1])
      + if tokens[|tokens| - 1] != "" then [Call(cb, id, tokens[|tokens| - 1])] else []
  }

  function AllCalls(callbacks: map<RequestId, Callback>, ss: seq<Stream>): seq<Call>
    requires forall s :: s in ss ==> s.id in callbacks
  {
    if ss == [] then []
    else TokenCalls(callbacks[ss[0].id], ss[0].id, ss[0].tokens) + AllCalls(callbacks, ss[1..])
  }

  lemma {:induction false} EventsOfStream(t: Table, s: Stream, n: nat)
    requires n <= |s.tokens| && s.id in t.callbacks && t.callbacks[s.id].Callback?
    ensures var t' := ReactTo(t, StreamMessages(s), n);
            && t'.callbacks == t.callbacks
            && t'.calls == t.calls + TokenCalls(t.callbacks[s.id], s.id, s.tokens[..n])
            && t'.lastEventId == if n == 0 then t.lastEventId else s.id
  {
    if n > 0 {
      EventsOfStream(t, s, n - 1);
      assert s.tokens[..n][..n - 1] == s.tokens[..n - 1];
      assert StreamMessages(s)[n - 1] == Event(s.id, s.tokens[n - 1]);
    }
  }

  /** A stream with events ends with its callback gone; one without events ends with its
      `[DONE]` ignored, because then no id is the latest one. */
  lemma OneStream(t: Table, s: Stream)
    requires s.id != "" && s.id in t.callbacks && t.callbacks[s.id].Callback? && t.lastEventId == ""
    ensures ReactAll(t, StreamMessages(s)) ==
            Table(if s.tokens == [] then t.callbacks else t.callbacks - {s.id}, "",
                  t.calls + TokenCalls(t.callbacks[s.id], s.id, s.tokens))
  {
    EventsOfStream(t, s, |s.tokens|);
    assert s.tokens[..|s.tokens|] == s.tokens;
    assert StreamMessages(s)[|s.tokens|] == Done;
  }

  ghost predicate Sequential(callbacks: map<RequestId, Callback>, ss: seq<Stream>) {
    && (forall i :: 0 <= i < |ss| ==> ss[i].id != "" && ss[i].id in callbacks && callbacks[ss[i].id].Callback?)
    && (forall i, j :: 0 <= i < j < |ss| ==> ss[i].id != ss[j].id)
  }

  lemma {:induction false} AllCallsSame(a: map<RequestId, Callback>, b: map<RequestId, Callback>, ss: seq<Stream>)
    requires forall s :: s in ss ==> s.id in a && s.id in b && a[s.id] == b[s.id]
    ensures AllCalls(a, ss) == AllCalls(b, ss)
  {
    if ss != [] {
      AllCallsSame(a, b, ss[1..]);
    }
  }

  /** The ids of the streams that had an event. */
  function Spoke(ss: seq<Stream>): set<RequestId> {
    set s | s in ss && s.tokens != [] :: s.id
  }

  /** Streams that do not interleave: every request gets its full token list, in order, and
      those that had an event are gone from the table at the end. */
  lemma {:induction false} SequentialStreamsAreComplete(t: Table, ss: seq<Stream>)
    requires Sequential(t.callbacks, ss) && t.lastEventId == ""
    ensures forall s :: s in ss ==> s.id in t.callbacks
    ensures ReactAll(t, AllMessages(ss)) == Table(t.callbacks - Spoke(ss), "", t.calls + AllCalls(t.callbacks, ss))
    decreases |ss|
  {
    if ss != [] {
      var s := ss[0];
      var t1 := Table(if s.tokens == [] then t.callbacks else t.callbacks - {s.id}, "",
                      t.calls + TokenCalls(t.callbacks[s.id], s.id, s.tokens));
      OneStream(t, s);
      ReactAllAppend(t, StreamMessages(s), AllMessages(ss[1..]));
      SequentialTail(t.callbacks, ss);
      SequentialStreamsAreComplete(t1, ss[1..]);
      AllCallsSame(t1.callbacks, t.callbacks, ss[1..]);
      assert Spoke(ss) == (if s.tokens == [] then {} else {s.id}) + Spoke(ss[1..]);
      assert t1.callbacks - Spoke(ss[1..]) == t.callbacks - Spoke(ss);
    }
  }

  lemma SequentialTail(callbacks: map<RequestId, Callback>, ss: seq<Stream>)
    requires Sequential(callbacks, ss) && ss != []
    ensures Sequential(callbacks, ss[1..]) && Sequential(callbacks - {ss[0].id}, ss[1..])
    ensures forall s :: s in ss[1..] ==> s.id in callbacks && s.id != ss[0].id
  {
  }

  /** A request leaves the table iff its stream had an event: after `[DONE]` alone, the
      callback stays registered. */
  lemma {:induction false} RequestLeavesIffItSpoke(t: Table, ss: seq<Stream>, i: nat)
    requires Sequential(t.callbacks, ss) && t.lastEventId == "" && i < |ss|
    ensures ss[i].id !in ReactAll(t, AllMessages(ss)).callbacks <==> ss[i].tokens != []
  {
    SequentialStreamsAreComplete(t, ss);
    if ss[i].id in Spoke(ss) {
      var s :| s in ss && s.tokens != [] && s.id == ss[i].id;
      var j :| 0 <= j < |ss| && ss[j] == s;
      assert j == i;
    }
  }

  // ---- From bytes to callbacks ----------------------------------------------------

  /** End to end: however the encoding of a list of frames is cut into reads, a registered
      request gets exactly the calls its frames ask for up to its `[DONE]`, and no byte is
      left over. */
  lemma DeliveryFromBytes(parse: Parser, t: Table, frames: seq<Bytes>, chunks: seq<Bytes>, id: RequestId)
    requires AreFrames(frames) && Flatten(chunks) == Encode(frames)
    requires id != "" && id in t.callbacks && t.callbacks[id].Callback?
    ensures var ms := Messages(parse, frames);
            var r := FeedAll(parse, Reader(t, []), chunks);
            && r == Reader(ReactAll(t, ms), [])
            && CallsOf(r.table.calls, id) == CallsOf(t.calls, id)
                 + Wanted(t.callbacks[id], id, ms, FirstClose(t.lastEventId, ms, |ms|, id))
  {
    ChunksDoNotMatter(parse, Reader(t, []), chunks);
    assert [] + Flatten(chunks) == Encode(frames) + [];
    SplitInvertsEncode(frames, []);
    DeliveryIsExact(t, Messages(parse, frames), |frames|, id);
  }

  // ---- On the wire ---------------------------------------------------------------

  /** A JSON object that carries a request id and a token: the token is the content of the
      delta of the first choice or, if that is missing or empty, the text of that choice. */
  ghost predicate Says(j: Json, id: RequestId, token: Token) {
    && j.Object? && "id" in j.members && j.members["id"] == Text(id)
    && "choices" in j.members && j.members["choices"].Array? && j.members["choices"].items != []
    && var choice := j.members["choices"].items[0];
    && choice.Object?
    && (HasContent(choice, token)
        || ((forall x :: x != "" ==> !HasContent(choice, x))
            && "text" in choice.members && choice.members["text"] == Text(token)))
  }

  ghost predicate HasContent(choice: Json, content: string) {
    && choice.Object? && "delta" in choice.members && choice.members["delta"].Object?
    && var delta := choice.members["delta"].members;
    "content" in delta && delta["content"] == Text(content)
  }

  lemma {:induction false} SaysWhatItMeans(j: Json, id: RequestId, token: Token)
    requires Says(j, id, token) && token != ""
    ensures Meaning(Some(j)) == Event(id, token)
  {
    var choice := FirstItem(Member(j, "choices"));
    var content := TextOf(Member(Member(choice, "delta"), "content"));
    assert content != "" ==> HasContent(choice, content);
  }

  /** White space of the C locale: tab, line feed, vertical tab, form feed, carriage return
      and space. */
  ghost predicate Blank(b: Bytes) {
    forall i :: 0 <= i < |b| ==> b[i] in {9, 10, 11, 12, 13, 32}
  }

  ghost predicate Unpadded(b: Bytes) {
    b != [] && b[0] !in {9, 10, 11, 12, 13, 32} && b[|b| - 1] !in {9, 10, 11, 12, 13, 32}
  }

  lemma {:induction false} OneFrameSplit(frame: Bytes)
    requires IsFrame(frame)
    ensures SplitFrames(frame + [10, 10]) == Split([frame], [])
  {
    assert Encode([frame][1..]) == [];
    assert Encode([frame]) + [] == frame + [10, 10];
    SplitInvertsEncode([frame], []);
  }

  lemma {:induction false} OneMessage(parse: Parser, t: Table, frame: Bytes)
    ensures ReactAll(t, Messages(parse, [frame])) == React(t, Classify(parse, frame))
  {
    assert ReactTo(t, Messages(parse, [frame]), 0) == t;
  }

  /** One frame and its blank line, in any chunks, is one message. */
  lemma {:induction false} OneFrameRead(parse: Parser, t: Table, frame: Bytes, chunks: seq<Bytes>)
    requires IsFrame(frame) && Flatten(chunks) == frame + [10, 10]
    ensures FeedAll(parse, Reader(t, []), chunks) == Reader(React(t, Classify(parse, frame)), [])
  {
    ChunksDoNotMatter(parse, Reader(t, []), chunks);
    assert [] + Flatten(chunks) == frame + [10, 10];
    OneFrameSplit(frame);
    OneMessage(parse, t, frame);
  }

  /** The bytes of `data: `, padded JSON and a blank line, however they are cut, make exactly
      one call: of the callback of the id in the JSON, with the token in it. */
  lemma {:induction false} EventOnTheWire(parse: Parser, t: Table, before: Bytes, core: Bytes, after: Bytes,
                                          chunks: seq<Bytes>, id: RequestId, token: Token)
    requires Blank(before) && Unpadded(core) && Blank(after) && core != [91, 68, 79, 78, 69, 93]
    requires IsFrame([100, 97, 116, 97, 58, 32] + before + core + after)
    requires Flatten(chunks) == [100, 97, 116, 97, 58, 32] + before + core + after + [10, 10]
    requires parse(core).Some? && Says(parse(core).value, id, token) && token != ""
    requires id in t.callbacks && t.callbacks[id].Callback?
    ensures FeedAll(parse, Reader(t, []), chunks)
         == Reader(Table(t.callbacks, id, t.calls + [Call(t.callbacks[id], id, token)]), [])
  {
    OneFrameRead(parse, t, [100, 97, 116, 97, 58, 32] + before + core + after, chunks);
    PaddingIsIgnored(parse, before, core, after);
    SaysWhatItMeans(parse(core).value, id, token);
  }

  /** An event without choices, or for a request that has no callback, makes no call; its id is
      the latest one all the same. */
  lemma {:induction false} EventWithoutCall(parse: Parser, t: Table, core: Bytes, chunks: seq<Bytes>, id: RequestId)
    requires Unpadded(core) && core != [91, 68, 79, 78, 69, 93] && IsFrame([100, 97, 116, 97, 58, 32] + core)
    requires Flatten(chunks) == [100, 97, 116, 97, 58, 32] + core + [10, 10]
    requires parse(core).Some? && parse(core).value.Object?
    requires var members := parse(core).value.members;
             && "id" in members && members["id"] == Text(id)
             && ("choices" !in members || id !in t.callbacks || t.callbacks[id] == NoCallback)
    ensures FeedAll(parse, Reader(t, []), chunks) == Reader(t.(lastEventId := id), [])
  {
    var frame := [100, 97, 116, 97, 58, 32] + core;
    OneFrameRead(parse, t, frame, chunks);
    assert frame == [100, 97, 116, 97, 58, 32] + [] + core + [];
    PaddingIsIgnored(parse, [], core, []);
  }

  /** `data: [DONE]`, padded or not, removes the request of the latest event and nothing else. */
  lemma {:induction false} DoneOnTheWire(parse: Parser, t: Table, before: Bytes, after: Bytes, chunks: seq<Bytes>)
    requires Blank(before) && Blank(after)
    requires IsFrame([100, 97, 116, 97, 58, 32] + before + [91, 68, 79, 78, 69, 93] + after)
    requires Flatten(chunks) == [100, 97, 116, 97, 58, 32] + before + [91, 68, 79, 78, 69, 93] + after + [10, 10]
    ensures FeedAll(parse, Reader(t, []), chunks)
         == Reader(if t.lastEventId == "" then t else Table(t.callbacks - {t.lastEventId}, "", t.calls), [])
  {
    OneFrameRead(parse, t, [100, 97, 116, 97, 58, 32] + before + [91, 68, 79, 78, 69, 93] + after, chunks);
    PaddingIsIgnored(parse, before, [91, 68, 79, 78, 69, 93], after);
  }

  /** Its shortest form is fourteen bytes. */
  lemma {:induction false} ShortestDone(parse: Parser, t: Table, chunks: seq<Bytes>)
    requires Flatten(chunks) == [100, 97, 116, 97, 58, 32, 91, 68, 79, 78, 69, 93, 10, 10]
    ensures FeedAll(parse, Reader(t, []), chunks)
         == Reader(if t.lastEventId == "" then t else Table(t.callbacks - {t.lastEventId}, "", t.calls), [])
  {
    assert Flatten(chunks) == [100, 97, 116, 97, 58, 32] + [] + [91, 68, 79, 78, 69, 93] + [] + [10, 10];
    DoneOnTheWire(parse, t, [], [], chunks);
  }

  /** A frame that does not start with `data: `, and one whose JSON is broken or not an object,
      leaves the table alone. */
  lemma {:induction false} OthersOnTheWire(parse: Parser, t: Table, frame: Bytes, chunks: seq<Bytes>)
    requires IsFrame(frame) && Flatten(chunks) == frame + [10, 10]
    requires !([100, 97, 116, 97, 58, 32] <= frame)
             || exists before, core, after ::
                  && Blank(before) && Unpadded(core) && Blank(after) && core != [91, 68, 79, 78, 69, 93]
                  && frame == [100, 97, 116, 97, 58, 32] + before + core + after
                  && (parse(core) == None || !parse(core).value.Object?)
    ensures FeedAll(parse, Reader(t, []), chunks) == Reader(t, [])
  {
    OneFrameRead(parse, t, frame, chunks);
    if [100, 97, 116, 97, 58, 32] <= frame {
      var before, core, after :|
        && Blank(before) && Unpadded(core) && Blank(after) && core != [91, 68, 79, 78, 69, 93]
        && frame == [100, 97, 116, 97, 58, 32] + before + core + after
        && (parse(core) == None || !parse(core).value.Object?);
      PaddingIsIgnored(parse, before, core, after);
    }
  }

  // ---- Requests that start while another one streams -------------------------------

  /** What happens to the client: bytes arrive, or `streamCompletion` registers a request. */
  datatype Operation = Read(chunk: Bytes) | Registration(id: RequestId, callback: Callback)

  function Operate(parse: Parser, r: Reader, o: Operation): Reader {
    match o
    case Read(chunk) => Feed(parse, r, chunk)
    case Registration(id, callback) => r.(table := r.table.(callbacks := r.table.callbacks[id := callback]))
  }

  function OperateAll(parse: Parser, r: Reader, os: seq<Operation>): Reader
    decreases |os|
  {
    if os == [] then r else OperateAll(parse, Operate(parse, r, os[0]), os[1..])
  }

  /** The chunks that were read, in order. */
  function ReadsOf(os: seq<Operation>): seq<Bytes> {
    if os == [] then []
    else (if os[0].Read? then [os[0].chunk] else []) + ReadsOf(os[1..])
  }

  /** Two tables that no callback call of `id` can tell apart. */
  ghost predicate SameFor(id: RequestId, a: Table, b: Table) {
    && a.lastEventId == b.lastEventId
    && (id in a.callbacks <==> id in b.callbacks)
    && (id in a.callbacks ==> a.callbacks[id] == b.callbacks[id])
    && CallsOf(a.calls, id) == CallsOf(b.calls, id)
  }

  lemma {:induction false} SameAfterReact(id: RequestId, a: Table, b: Table, m: Message)
    requires SameFor(id, a, b)
    ensures SameFor(id, React(a, m), React(b, m))
  {
    CallsAfterReact(a, m, id);
    CallsAfterReact(b, m, id);
  }

  lemma {:induction false} SameAfterReactTo(id: RequestId, a: Table, b: Table, ms: seq<Message>, n: nat)
    requires SameFor(id, a, b) && n <= |ms|
    ensures SameFor(id, ReactTo(a, ms, n), ReactTo(b, ms, n))
  {
    if n > 0 {
      SameAfterReactTo(id, a, b, ms, n - 1);
      SameAfterReact(id, ReactTo(a, ms, n - 1), ReactTo(b, ms, n - 1), ms[n - 1]);
    }
  }

  lemma {:induction false} SameAfterFeed(parse: Parser, id: RequestId, a: Reader, b: Reader, chunk: Bytes)
    requires SameFor(id, a.table, b.table) && a.buffer == b.buffer
    ensures SameFor(id, Feed(parse, a, chunk).table, Feed(parse, b, chunk).table)
    ensures Feed(parse, a, chunk).buffer == Feed(parse, b, chunk).buffer
  {
    var ms := Messages(parse, SplitFrames(a.buffer + chunk).frames);
    SameAfterReactTo(id, a.table, b.table, ms, |ms|);
  }

  /** Registrations of other requests change nothing for a request. */
  lemma {:induction false} OthersDoNotMatter(parse: Parser, id: RequestId, a: Reader, b: Reader, os: seq<Operation>)
    requires SameFor(id, a.table, b.table) && a.buffer == b.buffer
    requires forall i :: 0 <= i < |os| && os[i].Registration? ==> os[i].id != id
    ensures SameFor(id, OperateAll(parse, a, os).table, FeedAll(parse, b, ReadsOf(os)).table)
    ensures OperateAll(parse, a, os).buffer == FeedAll(parse, b, ReadsOf(os)).buffer
    decreases |os|
  {
    if os != [] {
      var a1 := Operate(parse, a, os[0]);
      match os[0]
      case Read(chunk) =>
        SameAfterFeed(parse, id, a, b, chunk);
        OthersDoNotMatter(parse, id, a1, Feed(parse, b, chunk), os[1..]);
        assert ReadsOf(os)[1..] == ReadsOf(os[1..]);
      case Registration(_, _) =>
        OthersDoNotMatter(parse, id, a1, b, os[1..]);
        assert ReadsOf(os) == ReadsOf(os[1..]);
    }
  }

  /** Exact delivery over every run of the client in which the request is registered once: for
      all bytes, all ways to cut them, and all other requests that start in between, it gets
      the calls that the frames received since then ask for up to its first `[DONE]`. */
  lemma {:induction false} DeliveryAmongRequests(parse: Parser, r: Reader, os: seq<Operation>, id: RequestId)
    requires HasNoSeparator(r.buffer)
    requires id != "" && id in r.table.callbacks && r.table.callbacks[id].Callback?
    requires forall i :: 0 <= i < |os| && os[i].Registration? ==> os[i].id != id
    ensures var split := SplitFrames(r.buffer + Flatten(ReadsOf(os)));
            var ms := Messages(parse, split.frames);
            var r' := OperateAll(parse, r, os);
            && r'.buffer == split.rest
            && CallsOf(r'.table.calls, id) == CallsOf(r.table.calls, id)
                 + Wanted(r.table.callbacks[id], id, ms, FirstClose(r.table.lastEventId, ms, |ms|, id))
            && (id in r'.table.callbacks <==> FirstClose(r.table.lastEventId, ms, |ms|, id) == |ms|)
  {
    var ms := Messages(parse, SplitFrames(r.buffer + Flatten(ReadsOf(os))).frames);
    OthersDoNotMatter(parse, id, r, r, os);
    ChunksDoNotMatter(parse, r, ReadsOf(os));
    DeliveryIsExact(r.table, ms, |ms|, id);
    RegisteredUntilClosed(r.table, ms, |ms|, id);
  }

  // ---- The object ----------------------------------------------------------------

  lemma ReactCons(t: Table, m: Message, ms: seq<Message>)
    ensures ReactAll(t, [m] + ms) == ReactAll(React(t, m), ms)
  {
    ReactAllAppend(t, [m], ms);
    assert ReactAll(t, [m]) == React(ReactTo(t, [m], 0), m);
  }

  lemma {:induction false} FirstFrameFirst(parse: Parser, t: Table, f: Bytes, frames: seq<Bytes>)
    ensures ReactAll(t, Messages(parse, [f] + frames))
         == ReactAll(React(t, Classify(parse, f)), Messages(parse, frames))
  {
    MessagesAppend(parse, [f], frames);
    assert Messages(parse, [f]) == [Classify(parse, f)];
    ReactCons(t, Classify(parse, f), Messages(parse, frames));
  }

  lemma {:induction false} DrainOneFrame(parse: Parser, t: Table, buffer: Bytes)
    requires FirstSeparator(buffer) < |buffer|
    ensures var i := FirstSeparator(buffer);
            Drain(parse, t, buffer) == Drain(parse, React(t, Classify(parse, buffer[..i])), buffer[i + 2..])
  {
    var i := FirstSeparator(buffer);
    var whole, tail := SplitFrames(buffer), SplitFrames(buffer[i + 2..]);
    SplitFirstFrame(buffer);
    var t' := React(t, Classify(parse, buffer[..i]));
    assert ReactAll(t, Messages(parse, whole.frames)) == ReactAll(t', Messages(parse, tail.frames)) by {
      FirstFrameFirst(parse, t, buffer[..i], tail.frames);
    }
  }

  class LlamaClient {
    var callbacks: map<RequestId, Callback>
    var buffer: Bytes
    var lastEventId: RequestId
    var calls: seq<Call>  // every callback call made so far

    function State(): Reader
      reads this
    {
      Reader(Table(callbacks, lastEventId, calls), buffer)
    }

    constructor ()
      ensures State() == Reader(Table(map[], "", []), [])
    {
      callbacks, buffer, lastEventId, calls := map[], [], "", [];
    }

    /** The registration in `streamCompletion`. */
    method Register(id: RequestId, callback: Callback)
      modifies this`callbacks
      ensures callbacks == old(callbacks)[id := callback]
    {
      callbacks := callbacks[id := callback];
    }

    method OnReadyRead(parse: Parser, chunk: Bytes)
      modifies this
      ensures State() == Feed(parse, old(State()), chunk)
    {
      buffer := buffer + chunk;
      while true
        invariant Drain(parse, State().table, buffer) == Feed(parse, old(State()), chunk)
        decreases |buffer|
      {
        var idx := FirstSeparator(buffer);
        if idx == |buffer| {
          break;
        }
        DrainOneFrame(parse, State().table, buffer);
        var event := buffer[..idx];
        buffer := buffer[idx + 2..];
        HandleEvent(parse, event);
      }
    }

    /** The rest of the loop body of `onReadyRead`; its `continue`s return from here. */
    method HandleEvent(parse: Parser, event: Bytes)
      modifies this
      ensures State() == Reader(React(old(State()).table, Classify(parse, event)), old(buffer))
    {
      if !(DATA_PREFIX <= event) {
        return;
      }
      var data := Trimmed(event[|DATA_PREFIX|..]);
      if data == DONE_MARK {
        if lastEventId != "" {
          callbacks := callbacks - {lastEventId};
          lastEventId := "";
        }
        return;
      }
      var doc := parse(data);
      if doc.None? || !doc.value.Object? {
        return;
      }
      var id := TextOf(Member(doc.value, "id"));
      var choices := Member(doc.value, "choices");
      var token := "";
      if choices.Array? && choices.items != [] {
        var choice := choices.items[0];
        token := TextOf(Member(Member(choice, "delta"), "content"));
        if token == "" {
          token := TextOf(Member(choice, "text"));
        }
      }
      var cb := if id in callbacks then callbacks[id] else NoCallback;
      lastEventId := id;
      if cb.Callback? && token != "" {
        calls := calls + [Call(cb, id, token)];
      }
    }
  }
}
