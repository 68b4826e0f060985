/** The NATS publisher's batch path: prepare everything, send in windows, await the acks of a window
    before opening the next, and put the results back in the caller's order. */
module PublishBatch {
  import opened Basics

  datatype ConfigError = ZeroBatchPipelineDepth | ZeroPublishTimeout | ZeroMaxPayload

  datatype NatsSettings = NatsSettings(batchPipelineDepth: nat, publishTimeout: nat, maxPayload: Option<nat>)

  datatype PublishError =
    | Map | Subject | PayloadTooLarge | MaxPayloadExceeded | WrongLastMessage
    | Timeout | Connection | StreamNotFound | MaxAckPending | Broker

  type Verdict = Result<(), PublishError>

  /** A verdict tagged with its envelope's index. */
  type Tagged = (nat, Verdict)

  /** What becomes of one envelope: it cannot be prepared; its send fails or times out; it is sent, and
      its ack fails, times out or arrives. */
  datatype Fate = Unprepared(error: PublishError) | Unsent(error: PublishError) | Sent(ack: Verdict)

  function Own(f: Fate): Verdict {
    match f
    case Unprepared(e) => Err(e)
    case Unsent(e) => Err(e)
    case Sent(ack) => ack
  }

  datatype NatsPublisher = NatsPublisher(settings: NatsSettings)

  function Build(settings: NatsSettings): (r: Result<NatsPublisher, ConfigError>)
    ensures r.Ok? <==> settings.batchPipelineDepth > 0 && settings.publishTimeout > 0 && settings.maxPayload != Some(0)
    ensures r.Ok? ==> r.value.settings == settings
  {
    if settings.batchPipelineDepth == 0 then Err(ZeroBatchPipelineDepth)
    else if settings.publishTimeout == 0 then Err(ZeroPublishTimeout)
    else if settings.maxPayload == Some(0) then Err(ZeroMaxPayload)
    else Ok(NatsPublisher(settings))
  }

  // ---------------------------------------------------------------- windows

  /** An index and how its send went; after an `Ok` its ack is still to be awaited. */
  type Sending = (nat, Result<(), PublishError>)

  function SendOf(f: Fate): Result<(), PublishError>
    requires !f.Unprepared?
  {
    if f.Unsent? then Err(f.error) else Ok(())
  }

  ghost predicate Sendable(window: seq<nat>, fates: seq<Fate>) {
    forall k | 0 <= k < |window| :: window[k] < |fates| && !fates[window[k]].Unprepared?
  }

  ghost predicate SentAs(sent: seq<Sending>, window: seq<nat>, fates: seq<Fate>)
    requires Sendable(window, fates)
  {
    |sent| == |window| && forall k | 0 <= k < |sent| :: sent[k] == (window[k], SendOf(fates[window[k]]))
  }

  /** What happens on the connection: a send goes out, the ack of an earlier one is awaited. */
  datatype Event = Send(index: nat) | Await(index: nat)

  /** The connection and everything done on it so far. How each send and ack turns out is the
      envelope's fate. */
  class Connection {
    var log: seq<Event>

    constructor ()
      ensures log == []
    {
      log := [];
    }

    method Send(i: nat, fate: Fate) returns (r: Result<(), PublishError>)
      requires !fate.Unprepared?
      modifies this
      ensures log == old(log) + [Event.Send(i)] && r == SendOf(fate)
    {
      log := log + [Event.Send(i)];
      r := SendOf(fate);
    }

    method Await(i: nat, fate: Fate) returns (v: Verdict)
      requires fate.Sent?
      modifies this
      ensures log == old(log) + [Event.Await(i)] && v == fate.ack
    {
      log := log + [Event.Await(i)];
      v := fate.ack;
    }
  }

  function Sends(window: seq<nat>): seq<Event> {
    seq(|window|, k requires 0 <= k < |window| => Event.Send(window[k]))
  }

  /** Only what was sent is awaited. */
  function Awaits(window: seq<nat>, fates: seq<Fate>): seq<Event>
    requires Sendable(window, fates)
  {
    if window == [] then []
    else
      var init, last := window[..|window| - 1], window[|window| - 1];
      Awaits(init, fates) + if fates[last].Sent? then [Event.Await(last)] else []
  }

  function WindowEvents(window: seq<nat>, fates: seq<Fate>): seq<Event>
    requires Sendable(window, fates)
  {
    Sends(window) + Awaits(window, fates)
  }

  method IssueWindowSends(conn: Connection, window: seq<nat>, fates: seq<Fate>) returns (sent: seq<Sending>)
    requires Sendable(window, fates)
    modifies conn
    ensures SentAs(sent, window, fates) && conn.log == old(conn.log) + Sends(window)
  {
    sent := [];
    for k := 0 to |window|
      invariant SentAs(sent, window[..k], fates) && conn.log == old(conn.log) + Sends(window[..k])
    {
      var r := conn.Send(window[k], fates[window[k]]);
      sent := sent + [(window[k], r)];
      assert Sends(window[..k + 1]) == Sends(window[..k]) + [Event.Send(window[k])];
    }
    assert window[..|window|] == window;
  }

  method AwaitWindowAcks(conn: Connection, ghost window: seq<nat>, sent: seq<Sending>, fates: seq<Fate>)
    returns (outcomes: seq<Tagged>)
    requires Sendable(window, fates) && SentAs(sent, window, fates)
    modifies conn
    ensures outcomes == Settle(window, fates) && conn.log == old(conn.log) + Awaits(window, fates)
  {
    outcomes := [];
    for k := 0 to |sent|
      invariant outcomes == Settle(window[..k], fates) && conn.log == old(conn.log) + Awaits(window[..k], fates)
    {
      assert window[..k + 1][..k] == window[..k];
      var i := sent[k].0;
      match sent[k].1
      case Err(e) => outcomes := outcomes + [(i, Err(e))];
      case Ok(_) =>
        var ack := conn.Await(i, fates[i]);
        outcomes := outcomes + [(i, ack)];
    }
    assert window[..|window|] == window;
  }

  /** Each index of a window with its own verdict. */
  function Settle(window: seq<nat>, fates: seq<Fate>): seq<Tagged>
    requires forall k | 0 <= k < |window| :: window[k] < |fates|
  {
    seq(|window|, k requires 0 <= k < |window| => (window[k], Own(fates[window[k]])))
  }

  /** The windows a batch is sent in: `depth` at a time, in order, until nothing is left. */
  function Chop(prepared: seq<nat>, depth: nat): seq<seq<nat>>
    requires depth > 0
  {
    if prepared == [] then []
    else
      var take := Min(|prepared|, depth);
      [prepared[..take]] + Chop(prepared[take..], depth)
  }

  function Flat(windows: seq<seq<nat>>): seq<nat> {
    if windows == [] then [] else windows[0] + Flat(windows[1..])
  }

  /** The windows hold everything prepared, once and in order; none is empty or deeper than `depth`. */
  lemma {:induction false} ChopCovers(prepared: seq<nat>, depth: nat)
    requires depth > 0
    ensures Flat(Chop(prepared, depth)) == prepared
    ensures forall w | w in Chop(prepared, depth) :: 0 < |w| <= depth
  {
    if prepared != [] {
      var take := Min(|prepared|, depth);
      ChopCovers(prepared[take..], depth);
      assert Chop(prepared, depth)[1..] == Chop(prepared[take..], depth);
      assert prepared == prepared[..take] + prepared[take..];
    }
  }

  /** Their number is `ceil(prepared / depth)`: the least `w` with `prepared <= depth * w`. */
  lemma {:induction false} WindowsIsCeiling(prepared: seq<nat>, depth: nat)
    requires depth > 0
    ensures var n, w := |prepared|, |Chop(prepared, depth)|; n <= depth * w && (n > 0 ==> w > 0 && depth * (w - 1) < n)
  {
    if |prepared| > depth {
      WindowsIsCeiling(prepared[depth..], depth);
      var w := |Chop(prepared[depth..], depth)|;
      assert depth * (w + 1) == depth * w + depth;
      assert depth * w == depth * (w - 1) + depth;
    } else if prepared != [] {
      assert prepared[|prepared|..] == [];
      assert |Chop(prepared, depth)| == 1;
    }
  }

  // ---------------------------------------------------------------- acks outstanding

  ghost predicate AllSendable(windows: seq<seq<nat>>, fates: seq<Fate>) {
    forall w | w in windows :: Sendable(w, fates)
  }

  function BatchEvents(windows: seq<seq<nat>>, fates: seq<Fate>): seq<Event>
    requires AllSendable(windows, fates)
  {
    if windows == [] then [] else WindowEvents(windows[0], fates) + BatchEvents(windows[1..], fates)
  }

  /** The acks still to be awaited after some events. */
  function Outstanding(events: seq<Event>, fates: seq<Fate>): int {
    if events == [] then 0
    else
      Outstanding(events[..|events| - 1], fates) +
      match events[|events| - 1]
      case Send(i) => if i < |fates| && fates[i].Sent? then 1 else 0
      case Await(_) => -1
  }

  lemma {:induction false} OutstandingConcat(a: seq<Event>, b: seq<Event>, fates: seq<Fate>)
    ensures Outstanding(a + b, fates) == Outstanding(a, fates) + Outstanding(b, fates)
  {
    if b == [] {
      assert a + b == a;
    } else {
      assert (a + b)[..|a + b| - 1] == a + b[..|b| - 1];
      OutstandingConcat(a, b[..|b| - 1], fates);
    }
  }

  /** Sends raise the count by at most one each, and the awaits of the window bring it back. */
  lemma {:induction false} SendsRaise(window: seq<nat>, fates: seq<Fate>)
    requires Sendable(window, fates)
    ensures 0 <= Outstanding(Sends(window), fates) <= |window|
    ensures Outstanding(Sends(window), fates) == |Awaits(window, fates)|
  {
    if window != [] {
      var init := window[..|window| - 1];
      assert Sends(window)[..|window| - 1] == Sends(init);
      SendsRaise(init, fates);
    }
  }

  lemma {:induction false} AwaitsLower(events: seq<Event>, fates: seq<Fate>)
    requires forall e | e in events :: e.Await?
    ensures Outstanding(events, fates) == -|events|
  {
    if events != [] {
      assert events[|events| - 1] in events;
      AwaitsLower(events[..|events| - 1], fates);
    }
  }

  lemma {:induction false} AwaitsAwait(window: seq<nat>, fates: seq<Fate>)
    requires Sendable(window, fates)
    ensures forall e | e in Awaits(window, fates) :: e.Await?
  {
    if window != [] {
      AwaitsAwait(window[..|window| - 1], fates);
    }
  }

  /** At every moment of a window. */
  lemma WindowStaysBounded(window: seq<nat>, fates: seq<Fate>, k: nat)
    requires Sendable(window, fates) && k <= |WindowEvents(window, fates)|
    ensures 0 <= Outstanding(WindowEvents(window, fates)[..k], fates) <= |window|
    ensures k == |WindowEvents(window, fates)| ==> Outstanding(WindowEvents(window, fates)[..k], fates) == 0
  {
    var sends, awaits := Sends(window), Awaits(window, fates);
    if k <= |window| {
      assert WindowEvents(window, fates)[..k] == Sends(window[..k]);
      SendsRaise(window[..k], fates);
      SendsRaise(window, fates);
      if k == |window| {
        assert window[..k] == window;
      }
    } else {
      var rest := awaits[..k - |sends|];
      assert WindowEvents(window, fates)[..k] == sends + rest;
      OutstandingConcat(sends, rest, fates);
      SendsRaise(window, fates);
      AwaitsAwait(window, fates);
      AwaitsLower(rest, fates);
    }
  }

  /** A finished window leaves nothing outstanding. */
  lemma FirstWindowSettles(window: seq<nat>, fates: seq<Fate>, later: seq<Event>)
    requires Sendable(window, fates)
    ensures Outstanding(WindowEvents(window, fates) + later, fates) == Outstanding(later, fates)
  {
    var first := WindowEvents(window, fates);
    WindowStaysBounded(window, fates, |first|);
    assert first[..|first|] == first;
    OutstandingConcat(first, later, fates);
  }

  /** The indices sent, in order. */
  function SentIn(events: seq<Event>): seq<nat> {
    if events == [] then []
    else
      var n := |events| - 1;
      SentIn(events[..n]) + if events[n].Send? then [events[n].index] else []
  }

  lemma {:induction false} SentInConcat(a: seq<Event>, b: seq<Event>)
    ensures SentIn(a + b) == SentIn(a) + SentIn(b)
  {
    if b == [] {
      assert a + b == a;
    } else {
      assert (a + b)[..|a + b| - 1] == a + b[..|b| - 1];
      SentInConcat(a, b[..|b| - 1]);
    }
  }

  lemma {:induction false} SentInSends(window: seq<nat>)
    ensures SentIn(Sends(window)) == window
  {
    if window != [] {
      assert Sends(window)[..|window| - 1] == Sends(window[..|window| - 1]);
      SentInSends(window[..|window| - 1]);
    }
  }

  lemma {:induction false} SentInAwaits(events: seq<Event>)
    requires forall e | e in events :: e.Await?
    ensures SentIn(events) == []
  {
    if events != [] {
      assert events[|events| - 1] in events;
      SentInAwaits(events[..|events| - 1]);
    }
  }

  lemma SentInWindow(window: seq<nat>, fates: seq<Fate>)
    requires Sendable(window, fates)
    ensures SentIn(WindowEvents(window, fates)) == window
  {
    SentInConcat(Sends(window), Awaits(window, fates));
    SentInSends(window);
    AwaitsAwait(window, fates);
    SentInAwaits(Awaits(window, fates));
  }

  /** What a batch sends is what its windows hold. */
  lemma {:induction false} SentInBatch(windows: seq<seq<nat>>, fates: seq<Fate>)
    requires AllSendable(windows, fates)
    ensures SentIn(BatchEvents(windows, fates)) == Flat(windows)
  {
    if windows != [] {
      var now, later := WindowEvents(windows[0], fates), BatchEvents(windows[1..], fates);
      SentInConcat(now, later);
      SentInWindow(windows[0], fates);
      SentInBatch(windows[1..], fates);
    }
  }

  /** At every moment of a batch, whatever its fates, between none and `depth` acks are outstanding. */
  lemma {:induction false} AcksStayBounded(windows: seq<seq<nat>>, fates: seq<Fate>, depth: nat, k: nat)
    requires AllSendable(windows, fates) && (forall w | w in windows :: |w| <= depth)
    requires k <= |BatchEvents(windows, fates)|
    ensures 0 <= Outstanding(BatchEvents(windows, fates)[..k], fates) <= depth
  {
    if windows != [] {
      var first, rest := WindowEvents(windows[0], fates), BatchEvents(windows[1..], fates);
      if k <= |first| {
        assert BatchEvents(windows, fates)[..k] == first[..k];
        WindowStaysBounded(windows[0], fates, k);
      } else {
        AcksStayBounded(windows[1..], fates, depth, k - |first|);
        assert BatchEvents(windows, fates)[..k] == first + rest[..k - |first|];
        FirstWindowSettles(windows[0], fates, rest[..k - |first|]);
      }
    }
  }

  // ---------------------------------------------------------------- back in order

  ghost predicate Ascending(s: seq<Tagged>) {
    forall i, j | 0 <= i < j < |s| :: s[i].0 < s[j].0
  }

  ghost predicate DistinctKeys(s: seq<Tagged>) {
    forall i, j | 0 <= i < j < |s| :: s[i].0 != s[j].0
  }

  ghost predicate SameElements(s: seq<Tagged>, t: seq<Tagged>) {
    |s| == |t| && forall p :: p in s <==> p in t
  }

  /** `sort_by_key`. */
  method SortByIndex(outcomes: seq<Tagged>) returns (sorted: seq<Tagged>)
    requires DistinctKeys(outcomes)
    ensures Ascending(sorted) && SameElements(sorted, outcomes)
  {
    sorted := [];
    for k := 0 to |outcomes|
      invariant Ascending(sorted) && SameElements(sorted, outcomes[..k])
    {
      assert outcomes[..k + 1] == outcomes[..k] + [outcomes[k]];
      forall q | q in sorted ensures q.0 != outcomes[k].0 {
        assert q in outcomes[..k];
      }
      sorted := Place(sorted, outcomes[k]);
    }
    assert outcomes[..|outcomes|] == outcomes;
  }

  method Place(sorted: seq<Tagged>, p: Tagged) returns (r: seq<Tagged>)
    requires Ascending(sorted) && forall q | q in sorted :: q.0 != p.0
    ensures Ascending(r) && SameElements(r, sorted + [p])
  {
    var at := 0;
    while at < |sorted| && sorted[at].0 < p.0
      invariant at <= |sorted| && forall m | 0 <= m < at :: sorted[m].0 < p.0
    {
      at := at + 1;
    }
    r := Spliced(sorted, at, p);
    if at < |sorted| {
      assert sorted[at] in sorted;
    }
    SplicedElements(sorted, at, p);
    SplicedAscends(sorted, at, p);
  }

  function Spliced(s: seq<Tagged>, at: nat, p: Tagged): seq<Tagged>
    requires at <= |s|
  {
    s[..at] + [p] + s[at..]
  }

  lemma SplicedElements(s: seq<Tagged>, at: nat, p: Tagged)
    requires at <= |s|
    ensures SameElements(Spliced(s, at, p), s + [p])
  {
  }

  lemma SplicedAscends(s: seq<Tagged>, at: nat, p: Tagged)
    requires at <= |s| && Ascending(s) && (at > 0 ==> s[at - 1].0 < p.0) && (at < |s| ==> p.0 < s[at].0)
    ensures Ascending(Spliced(s, at, p))
  {
    var r := Spliced(s, at, p);
    forall i, j | 0 <= i < j < |r| ensures r[i].0 < r[j].0 {
      assert i < at ==> r[i] == s[i];
      assert j < at ==> r[j] == s[j];
      assert i > at ==> r[i] == s[i - 1];
      assert j > at ==> r[j] == s[j - 1];
    }
  }

  /** Strictly ascending indices below their own number are 0, 1, 2, ... */
  lemma {:induction false} AscendingFromBelow(s: seq<Tagged>, k: nat)
    requires Ascending(s) && k < |s|
    ensures s[k].0 >= k
  {
    if k > 0 {
      AscendingFromBelow(s, k - 1);
    }
  }

  lemma {:induction false} AscendingFromAbove(s: seq<Tagged>, k: nat)
    requires Ascending(s) && k < |s| && forall p | p in s :: p.0 < |s|
    ensures s[k].0 <= k
    decreases |s| - k
  {
    if k + 1 < |s| {
      AscendingFromAbove(s, k + 1);
    } else {
      assert s[k] in s;
    }
  }

  // ---------------------------------------------------------------- publish_batch

  ghost predicate OwnVerdicts(s: seq<Tagged>, fates: seq<Fate>) {
    forall k | 0 <= k < |s| :: s[k].0 < |fates| && s[k].1 == Own(fates[s[k].0])
  }

  ghost predicate Rising(s: seq<nat>, n: nat) {
    && (forall a, b | 0 <= a < b < |s| :: s[a] < s[b])
    && (forall a | 0 <= a < |s| :: s[a] < n)
  }

  ghost predicate Apart(prepared: seq<nat>, outcomes: seq<Tagged>) {
    forall a, b | 0 <= a < |prepared| && 0 <= b < |outcomes| :: prepared[a] != outcomes[b].0
  }

  /** Indices still waiting and indices already settled: as many as there are envelopes so far, none
      twice. */
  ghost predicate Partition(prepared: seq<nat>, outcomes: seq<Tagged>, n: nat) {
    && Rising(prepared, n) && DistinctKeys(outcomes) && Apart(prepared, outcomes)
    && |prepared| + |outcomes| == n
    && (forall k | 0 <= k < |outcomes| :: outcomes[k].0 < n)
  }

  /** A window moves from the first to the second. */
  lemma WindowSettles(prepared: seq<nat>, outcomes: seq<Tagged>, fates: seq<Fate>, take: nat)
    requires Partition(prepared, outcomes, |fates|) && OwnVerdicts(outcomes, fates) && take <= |prepared|
    ensures Partition(prepared[take..], outcomes + Settle(prepared[..take], fates), |fates|)
    ensures OwnVerdicts(outcomes + Settle(prepared[..take], fates), fates)
  {
    var all := outcomes + Settle(prepared[..take], fates);
    forall i | |outcomes| <= i < |all|
      ensures all[i].0 == prepared[i - |outcomes|] && all[i].1 == Own(fates[all[i].0])
    {
    }
    forall i, j | 0 <= i < j < |all| ensures all[i].0 != all[j].0 {
    }
  }

  lemma {:induction false} ChopSendable(prepared: seq<nat>, fates: seq<Fate>, depth: nat)
    requires depth > 0 && Sendable(prepared, fates)
    ensures AllSendable(Chop(prepared, depth), fates)
  {
    if prepared != [] {
      ChopSendable(prepared[Min(|prepared|, depth)..], fates, depth);
    }
  }

  /** Everything a batch does on the connection: its windows, one after another. */
  ghost function Events(fates: seq<Fate>, depth: nat): seq<Event>
    requires depth > 0
  {
    PreparedSendable(fates);
    ChopSendable(Prepared(fates), fates, depth);
    BatchEvents(Chop(Prepared(fates), depth), fates)
  }

  lemma OneWindow(prepared: seq<nat>, fates: seq<Fate>, depth: nat)
    requires depth > 0 && prepared != [] && Sendable(prepared, fates)
    ensures var take := Min(|prepared|, depth);
            && AllSendable(Chop(prepared, depth), fates) && AllSendable(Chop(prepared[take..], depth), fates)
            && BatchEvents(Chop(prepared, depth), fates)
               == WindowEvents(prepared[..take], fates) + BatchEvents(Chop(prepared[take..], depth), fates)
            && |Chop(prepared, depth)| == 1 + |Chop(prepared[take..], depth)|
  {
    ChopSendable(prepared, fates, depth);
    assert Chop(prepared, depth)[1..] == Chop(prepared[Min(|prepared|, depth)..], depth);
  }

  /** What is still to happen on the connection, once `log` has. */
  ghost predicate Remains(log: seq<Event>, prepared: seq<nat>, fates: seq<Fate>, depth: nat, all: seq<Event>)
    requires depth > 0
  {
    && Sendable(prepared, fates) && AllSendable(Chop(prepared, depth), fates)
    && log + BatchEvents(Chop(prepared, depth), fates) == all
  }

  lemma WindowDone(before: seq<Event>, prepared: seq<nat>, fates: seq<Fate>, depth: nat, all: seq<Event>)
    requires depth > 0 && prepared != [] && Remains(before, prepared, fates, depth, all)
    ensures var take := Min(|prepared|, depth);
            Remains(before + WindowEvents(prepared[..take], fates), prepared[take..], fates, depth, all)
  {
    OneWindow(prepared, fates, depth);
    var take := Min(|prepared|, depth);
    var now, later := WindowEvents(prepared[..take], fates), BatchEvents(Chop(prepared[take..], depth), fates);
    assert before + (now + later) == before + now + later;
  }

  method PublishWindow(conn: Connection, window: seq<nat>, fates: seq<Fate>) returns (settled: seq<Tagged>)
    requires Sendable(window, fates)
    modifies conn
    ensures settled == Settle(window, fates) && conn.log == old(conn.log) + WindowEvents(window, fates)
  {
    var sent := IssueWindowSends(conn, window, fates);
    settled := AwaitWindowAcks(conn, window, sent, fates);
  }

  /** The loop over windows. */
  method PublishWindows(conn: Connection, prepared: seq<nat>, early: seq<Tagged>, fates: seq<Fate>, depth: nat)
    returns (outcomes: seq<Tagged>, windows: nat)
    requires depth > 0 && Sendable(prepared, fates) && AllSendable(Chop(prepared, depth), fates)
    requires Partition(prepared, early, |fates|) && OwnVerdicts(early, fates)
    modifies conn
    ensures Partition([], outcomes, |fates|) && OwnVerdicts(outcomes, fates)
    ensures conn.log == old(conn.log) + BatchEvents(Chop(prepared, depth), fates) && windows == |Chop(prepared, depth)|
  {
    outcomes, windows := early, 0;
    var rest := prepared;
    ghost var all := conn.log + BatchEvents(Chop(prepared, depth), fates);
    while rest != []
      invariant Partition(rest, outcomes, |fates|) && OwnVerdicts(outcomes, fates)
      invariant windows + |Chop(rest, depth)| == |Chop(prepared, depth)|
      invariant Remains(conn.log, rest, fates, depth, all)
      decreases |rest|
    {
      var take := Min(|rest|, depth);
      WindowSettles(rest, outcomes, fates, take);
      OneWindow(rest, fates, depth);
      WindowDone(conn.log, rest, fates, depth, all);
      var settled := PublishWindow(conn, rest[..take], fates);
      outcomes, rest, windows := outcomes + settled, rest[take..], windows + 1;
    }
    assert conn.log + [] == conn.log;
  }

  /** Results back in the caller's order. */
  method BackInOrder(outcomes: seq<Tagged>, fates: seq<Fate>) returns (results: seq<Verdict>)
    requires Partition([], outcomes, |fates|) && OwnVerdicts(outcomes, fates)
    ensures |results| == |fates| && forall i | 0 <= i < |fates| :: results[i] == Own(fates[i])
  {
    var sorted := SortByIndex(outcomes);
    forall k | 0 <= k < |sorted| ensures sorted[k] == (k, Own(fates[k])) {
      assert sorted[k] in outcomes;
      assert forall p | p in sorted :: p in outcomes;
      AscendingFromBelow(sorted, k);
      AscendingFromAbove(sorted, k);
    }
    results := seq(|sorted|, k requires 0 <= k < |sorted| => sorted[k].1);
  }

  /** Exactly one result per envelope, in the caller's order, each the envelope's own verdict; and on the
      connection exactly the sends and awaits of the windows everything prepared is chopped into. */
  method PublishBatch(publisher: NatsPublisher, conn: Connection, fates: seq<Fate>)
    returns (results: seq<Verdict>, windows: nat)
    requires Build(publisher.settings) == Ok(publisher)
    modifies conn
    ensures |results| == |fates| && forall i | 0 <= i < |fates| :: results[i] == Own(fates[i])
    ensures forall i | 0 <= i < |fates| :: ToldOf(fates[i], results[i])
    ensures conn.log == old(conn.log) + Events(fates, publisher.settings.batchPipelineDepth)
    ensures windows == |Chop(Prepared(fates), publisher.settings.batchPipelineDepth)|
  {
    var depth := publisher.settings.batchPipelineDepth;
    var prepared, early := PrepareAll(fates);
    PreparedPartition(fates);
    EarlyVerdicts(fates);
    PreparedSendable(fates);
    ChopSendable(prepared, fates, depth);
    var outcomes;
    outcomes, windows := PublishWindows(conn, prepared, early, fates, depth);
    results := BackInOrder(outcomes, fates);
  }

  /** A batch sends every prepared envelope once, in the caller's order, and at no moment has more than
      `depth` acks outstanding. */
  lemma BatchIsBounded(publisher: NatsPublisher, fates: seq<Fate>, k: nat)
    requires Build(publisher.settings) == Ok(publisher)
    requires k <= |Events(fates, publisher.settings.batchPipelineDepth)|
    ensures var depth := publisher.settings.batchPipelineDepth;
            && SentIn(Events(fates, depth)) == Prepared(fates)
            && 0 <= Outstanding(Events(fates, depth)[..k], fates) <= depth
  {
    var depth := publisher.settings.batchPipelineDepth;
    ChopCovers(Prepared(fates), depth);
    PreparedSendable(fates);
    ChopSendable(Prepared(fates), fates, depth);
    SentInBatch(Chop(Prepared(fates), depth), fates);
    AcksStayBounded(Chop(Prepared(fates), depth), fates, depth, k);
  }

  lemma {:induction false} AwaitsExactly(window: seq<nat>, fates: seq<Fate>, i: nat)
    requires Sendable(window, fates)
    ensures Event.Await(i) in Awaits(window, fates) <==> i in window && i < |fates| && fates[i].Sent?
  {
    if window != [] {
      var init, last := window[..|window| - 1], window[|window| - 1];
      assert window == init + [last];
      AwaitsExactly(init, fates, i);
    }
  }

  lemma SendsExactly(window: seq<nat>, i: nat)
    ensures Event.Send(i) in Sends(window) <==> i in window
  {
    if i in window {
      var k :| 0 <= k < |window| && window[k] == i;
      assert Sends(window)[k] == Event.Send(i);
    }
  }

  lemma WindowExactly(window: seq<nat>, fates: seq<Fate>, i: nat)
    requires Sendable(window, fates)
    ensures Event.Send(i) in WindowEvents(window, fates) <==> i in window
    ensures Event.Await(i) in WindowEvents(window, fates) <==> i in window && i < |fates| && fates[i].Sent?
  {
    SendsExactly(window, i);
    AwaitsExactly(window, fates, i);
    AwaitsAwait(window, fates);
  }

  lemma {:induction false} BatchExactly(windows: seq<seq<nat>>, fates: seq<Fate>, i: nat)
    requires AllSendable(windows, fates)
    ensures Event.Send(i) in BatchEvents(windows, fates) <==> i in Flat(windows)
    ensures Event.Await(i) in BatchEvents(windows, fates) <==> i in Flat(windows) && i < |fates| && fates[i].Sent?
  {
    if windows != [] {
      WindowExactly(windows[0], fates, i);
      BatchExactly(windows[1..], fates, i);
    }
  }

  lemma {:induction false} PreparedExactly(fates: seq<Fate>, i: nat)
    ensures i in Prepared(fates) <==> i < |fates| && !fates[i].Unprepared?
  {
    if fates != [] {
      PreparedExactly(fates[..|fates| - 1], i);
    }
  }

  /** An envelope is sent exactly when it can be prepared, and its ack awaited exactly when it was sent. */
  lemma SentAndAwaitedExactly(fates: seq<Fate>, depth: nat, i: nat)
    requires depth > 0
    ensures Event.Send(i) in Events(fates, depth) <==> i < |fates| && !fates[i].Unprepared?
    ensures Event.Await(i) in Events(fates, depth) <==> i < |fates| && fates[i].Sent?
  {
    PreparedSendable(fates);
    ChopSendable(Prepared(fates), fates, depth);
    ChopCovers(Prepared(fates), depth);
    BatchExactly(Chop(Prepared(fates), depth), fates, i);
    PreparedExactly(fates, i);
  }

  /** What becomes of an envelope is what its caller is told: the error that stopped it, or its ack. */
  ghost predicate ToldOf(f: Fate, v: Verdict) {
    match f
    case Unprepared(e) => v == Err(e)
    case Unsent(e) => v == Err(e)
    case Sent(Ok(_)) => v.Ok?
    case Sent(Err(e)) => v == Err(e)
  }

  lemma SettleAtOnce(prepared: seq<nat>, outcomes: seq<Tagged>, n: nat, v: Verdict)
    requires Partition(prepared, outcomes, n)
    ensures Partition(prepared, outcomes + [(n, v)], n + 1)
  {
  }

  lemma SetAside(prepared: seq<nat>, outcomes: seq<Tagged>, n: nat)
    requires Partition(prepared, outcomes, n)
    ensures Partition(prepared + [n], outcomes, n + 1)
  {
  }

  /** The envelopes that can be prepared, in the caller's order. */
  function Prepared(fates: seq<Fate>): seq<nat> {
    if fates == [] then []
    else
      var n := |fates| - 1;
      Prepared(fates[..n]) + if fates[n].Unprepared? then [] else [n]
  }

  lemma {:induction false} PreparedSendable(fates: seq<Fate>)
    ensures Sendable(Prepared(fates), fates)
  {
    if fates != [] {
      PreparedSendable(fates[..|fates| - 1]);
    }
  }

  /** The verdicts settled before anything is sent. */
  function Early(fates: seq<Fate>): seq<Tagged> {
    if fates == [] then []
    else
      var n := |fates| - 1;
      Early(fates[..n]) + if fates[n].Unprepared? then [(n, Own(fates[n]))] else []
  }

  lemma {:induction false} PreparedPartition(fates: seq<Fate>)
    ensures Partition(Prepared(fates), Early(fates), |fates|)
  {
    if fates != [] {
      var n := |fates| - 1;
      PreparedPartition(fates[..n]);
      if fates[n].Unprepared? {
        SettleAtOnce(Prepared(fates[..n]), Early(fates[..n]), n, Own(fates[n]));
      } else {
        SetAside(Prepared(fates[..n]), Early(fates[..n]), n);
      }
    }
  }

  lemma {:induction false} EarlyVerdicts(fates: seq<Fate>)
    ensures OwnVerdicts(Early(fates), fates)
  {
    if fates != [] {
      EarlyVerdicts(fates[..|fates| - 1]);
    }
  }

  method PrepareAll(fates: seq<Fate>) returns (prepared: seq<nat>, outcomes: seq<Tagged>)
    ensures prepared == Prepared(fates) && outcomes == Early(fates)
  {
    prepared, outcomes := [], [];
    for i := 0 to |fates|
      invariant prepared == Prepared(fates[..i]) && outcomes == Early(fates[..i])
    {
      assert fates[..i + 1][..i] == fates[..i];
      match fates[i]
      case Unprepared(e) => outcomes := outcomes + [(i, Err(e))];
      case _ => prepared := prepared + [i];
    }
    assert fates[..|fates|] == fates;
  }
}
