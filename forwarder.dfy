/**
  The forwarding pipeline of src/index.js: polling one batch (lines 75-91),
  processing its commits one at a time (lines 93-131) and delivering each
  unprocessed event with retries (lines 133-145), advancing and saving the
  cursor after every delivered event and every completed commit.

  Events are objects: the source tags each kept event in place with its
  commit's sequence and an index before posting it. A POST is modelled by a
  `Notifier` whose `faults` list says, attempt by attempt, whether the
  endpoint fails; a retried event is posted again until an attempt succeeds.
 */
module Forwarder {
  import opened Wrappers
  import opened CursorStore
  import opened Replay
  import opened Template

  class Event {
    const payload: Payload
    var sequence: int
    var index: int

    constructor (payload: Payload, sequence: int, index: int)
      ensures this.payload == payload && this.sequence == sequence && this.index == index
    {
      this.payload := payload;
      this.sequence := sequence;
      this.index := index;
    }
  }

  /** A commit of the polled stream; its events are distinct objects, as parsing JSON yields them. */
  datatype Commit = Commit(sequence: int, events: seq<Event>)

  predicate DistinctEvents(evs: seq<Event>) {
    forall i, j :: 0 <= i < j < |evs| ==> evs[i] != evs[j]
  }

  /** The body of a POST of `e`: its payload and its current tags. */
  function Posted(e: Event): Delivery
    reads e
  {
    Delivery(e.payload, e.sequence, e.index)
  }

  function Payloads(evs: seq<Event>): seq<Payload> {
    seq(|evs|, k requires 0 <= k < |evs| => evs[k].payload)
  }

  function Data(c: Commit): CommitData {
    CommitData(c.sequence, Payloads(c.events))
  }

  function DataOf(cs: seq<Commit>): seq<CommitData> {
    seq(|cs|, k requires 0 <= k < |cs| => Data(cs[k]))
  }

  /** All event objects of a batch: what processing it may tag. */
  function EventsOf(cs: seq<Commit>): set<Event> {
    set i, j | 0 <= i < |cs| && 0 <= j < |cs[i].events| :: cs[i].events[j]
  }

  lemma EventsOfCovers(cs: seq<Commit>, i: nat)
    requires i < |cs|
    ensures forall e :: e in cs[i].events ==> e in EventsOf(cs)
  {
    forall e | e in cs[i].events
      ensures e in EventsOf(cs)
    {
      var j :| 0 <= j < |cs[i].events| && cs[i].events[j] == e;
    }
  }

  /** The number of attempts that fail before the next one succeeds. */
  function FailuresAhead(faults: seq<bool>): (n: nat)
    ensures n <= |faults|
  {
    if faults == [] || !faults[0] then 0 else 1 + FailuresAhead(faults[1..])
  }

  /** The next `FailuresAhead(faults)` attempts fail and the one after them succeeds. */
  lemma {:induction false} FailuresAheadSpec(faults: seq<bool>)
    ensures forall k :: 0 <= k < FailuresAhead(faults) ==> faults[k]
    ensures FailuresAhead(faults) < |faults| ==> !faults[FailuresAhead(faults)]
    decreases |faults|
  {
    if faults != [] && faults[0] {
      FailuresAheadSpec(faults[1..]);
    }
  }

  function Drop(faults: seq<bool>, n: nat): seq<bool> {
    if n >= |faults| then [] else faults[n..]
  }

  /** `d`, `n` times over. */
  function Repeat(d: Delivery, n: nat): (r: seq<Delivery>)
    ensures |r| == n
  {
    if n == 0 then [] else [d] + Repeat(d, n - 1)
  }

  lemma {:induction false} RepeatOneMore(d: Delivery, n: nat)
    ensures Repeat(d, n + 1) == Repeat(d, n) + [d]
    decreases n
  {
    if n > 0 {
      RepeatOneMore(d, n - 1);
      AppendAssoc([d], Repeat(d, n - 1), [d]);
    }
  }

  /** The notification endpoint, seen from the forwarder. */
  class Notifier {
    /** Outcome of the coming attempts, in order: `true` fails; past the end, every attempt succeeds. */
    var faults: seq<bool>
    /** Every POST made, successful or not. */
    var attempts: seq<Delivery>
    /** The POSTs that succeeded. */
    var accepted: seq<Delivery>

    constructor (faults: seq<bool>)
      ensures this.faults == faults && attempts == [] && accepted == []
    {
      this.faults := faults;
      attempts := [];
      accepted := [];
    }

    /** One POST of `d`; `ok` is whether the endpoint answered with success. */
    method Post(d: Delivery) returns (ok: bool)
      modifies this
      ensures ok == (old(faults) == [] || !old(faults)[0])
      ensures faults == Drop(old(faults), 1)
      ensures attempts == old(attempts) + [d]
      ensures accepted == if ok then old(accepted) + [d] else old(accepted)
    {
      ok := faults == [] || !faults[0];
      faults := Drop(faults, 1);
      attempts := attempts + [d];
      if ok {
        accepted := accepted + [d];
      }
    }
  }

  lemma TakeOneMore<T>(s: seq<T>, i: nat)
    requires i < |s|
    ensures s[..i + 1] == s[..i] + [s[i]]
  {
  }

  lemma AppendAssoc<T>(a: seq<T>, b: seq<T>, c: seq<T>)
    ensures a + (b + c) == (a + b) + c
  {
  }

  lemma TakeAll<T>(s: seq<T>)
    ensures s[..|s|] == s
  {
  }

  lemma DropDrop(faults: seq<bool>, n: nat)
    ensures Drop(Drop(faults, n), 1) == Drop(faults, n + 1)
  {
  }

  /**
    The POSTs made while delivering `posts` one at a time, in order, against the
    fault schedule `faults`: each is attempted again after every failure, and
    the next is attempted only once the previous one has succeeded.
   */
  function AttemptLog(posts: seq<Delivery>, faults: seq<bool>): seq<Delivery>
    decreases |posts|
  {
    if posts == [] then []
    else
      var n := FailuresAhead(faults) + 1;
      Repeat(posts[0], n) + AttemptLog(posts[1..], Drop(faults, n))
  }

  /** The fault schedule left once `posts` are delivered. */
  function FaultsAfter(posts: seq<Delivery>, faults: seq<bool>): seq<bool>
    decreases |posts|
  {
    if posts == [] then faults else FaultsAfter(posts[1..], Drop(faults, FailuresAhead(faults) + 1))
  }

  /** Delivering `a + b` is delivering `a`, then `b` against what is left of the schedule. */
  lemma {:induction false} AttemptLogSplit(a: seq<Delivery>, b: seq<Delivery>, faults: seq<bool>)
    ensures AttemptLog(a + b, faults) == AttemptLog(a, faults) + AttemptLog(b, FaultsAfter(a, faults))
    ensures FaultsAfter(a + b, faults) == FaultsAfter(b, FaultsAfter(a, faults))
    decreases |a|
  {
    if a == [] {
      EmptyAppend(a, b);
    } else {
      var n := FailuresAhead(faults) + 1;
      AppendTail(a, b);
      AttemptLogSplit(a[1..], b, Drop(faults, n));
      AppendAssoc(Repeat(a[0], n), AttemptLog(a[1..], Drop(faults, n)), AttemptLog(b, FaultsAfter(a, faults)));
    }
  }

  /** One more delivery after the first `i`. */
  lemma AttemptLogStep(posts: seq<Delivery>, i: nat, faults: seq<bool>)
    requires i < |posts|
    ensures var left := FaultsAfter(posts[..i], faults);
      var n := FailuresAhead(left) + 1;
      && AttemptLog(posts[..i + 1], faults) == AttemptLog(posts[..i], faults) + Repeat(posts[i], n)
      && FaultsAfter(posts[..i + 1], faults) == Drop(left, n)
  {
    var left := FaultsAfter(posts[..i], faults);
    var n := FailuresAhead(left) + 1;
    TakeOneMore(posts, i);
    AttemptLogSplit(posts[..i], [posts[i]], faults);
    assert [posts[i]][1..] == [];
    assert Repeat(posts[i], n) + [] == Repeat(posts[i], n);
  }

  /** With no failure in the schedule, every event is attempted exactly once. */
  lemma {:induction false} NoFaultsNoRetries(posts: seq<Delivery>, faults: seq<bool>)
    requires forall k :: 0 <= k < |faults| ==> !faults[k]
    ensures AttemptLog(posts, faults) == posts
    decreases |posts|
  {
    if posts != [] {
      assert FailuresAhead(faults) == 0;
      NoFaultsNoRetries(posts[1..], Drop(faults, 1));
      RepeatOneMore(posts[0], 0);
      EmptyAppend([], [posts[0]]);
      assert posts == [posts[0]] + posts[1..];
    }
  }

  /**
    Every event is attempted at least once, and each extra attempt uses up one
    failure of the schedule.
   */
  lemma {:induction false} AttemptLogLength(posts: seq<Delivery>, faults: seq<bool>)
    ensures |posts| <= |AttemptLog(posts, faults)|
    ensures |AttemptLog(posts, faults)| + |FaultsAfter(posts, faults)| <= |posts| + |faults|
    decreases |posts|
  {
    if posts != [] {
      var n := FailuresAhead(faults) + 1;
      AttemptLogLength(posts[1..], Drop(faults, n));
      assert AttemptLog(posts, faults) == Repeat(posts[0], n) + AttemptLog(posts[1..], Drop(faults, n));
      assert |Repeat(posts[0], n)| == n;
      assert |Drop(faults, n)| == if n >= |faults| then 0 else |faults| - n;
    }
  }

  /**
    `processEvent`: post the event until an attempt succeeds, then count it in
    the cursor. The event is accepted once; it is attempted once more for every
    failure ahead.
   */
  method ProcessEvent(cursor: Cursor, notifier: Notifier, e: Event)
    requires cursor.Durable()
    modifies cursor, notifier
    ensures cursor.Durable()
    ensures cursor.sequence == old(cursor.sequence) && cursor.index == old(cursor.index) + 1
    ensures notifier.accepted == old(notifier.accepted) + [Posted(e)]
    ensures notifier.attempts == old(notifier.attempts) + Repeat(Posted(e), FailuresAhead(old(notifier.faults)) + 1)
    ensures notifier.faults == Drop(old(notifier.faults), FailuresAhead(old(notifier.faults)) + 1)
  {
    ghost var faults := notifier.faults;
    ghost var failures := FailuresAhead(faults);
    FailuresAheadSpec(faults);
    var d := Posted(e);
    var ok := notifier.Post(d);
    RepeatOneMore(d, 0);
    EmptyAppend([], [d]);
    ghost var n := 1;
    while !ok
      invariant 1 <= n <= failures + 1
      invariant ok <==> n == failures + 1
      invariant notifier.faults == Drop(faults, n)
      invariant notifier.attempts == old(notifier.attempts) + Repeat(d, n)
      invariant notifier.accepted == if ok then old(notifier.accepted) + [d] else old(notifier.accepted)
      invariant unchanged(cursor)
      decreases failures + 1 - n
    {
      ok := notifier.Post(d);
      DropDrop(faults, n);
      RepeatOneMore(d, n);
      AppendAssoc(old(notifier.attempts), Repeat(d, n), [d]);
      n := n + 1;
    }
    cursor.IncrementEvent();
  }

  /** Each of `evs` carries `sequence` and its own position in `evs` as tags. */
  ghost predicate Tags(evs: seq<Event>, sequence: int)
    reads evs
  {
    forall k :: 0 <= k < |evs| ==> evs[k].sequence == sequence && evs[k].index == k
  }

  /** `.map` over the kept events: tag each with the commit's sequence and its position in the list. */
  method TagEvents(evs: seq<Event>, sequence: int)
    requires DistinctEvents(evs)
    modifies evs
    ensures Tags(evs, sequence)
  {
    for k := 0 to |evs|
      invariant forall j :: 0 <= j < k ==> evs[j].sequence == sequence && evs[j].index == j
    {
      evs[k].sequence := sequence;
      evs[k].index := k;
    }
  }

  /** The bodies of POSTs of `evs`, in order, with the tags they carry now. */
  function PostedAll(evs: seq<Event>): (r: seq<Delivery>)
    reads evs
    ensures |r| == |evs|
    decreases |evs|
  {
    if evs == [] then [] else [Posted(evs[0])] + PostedAll(evs[1..])
  }

  lemma {:induction false} PostedAllAt(evs: seq<Event>, k: nat)
    requires k < |evs|
    ensures |PostedAll(evs)| == |evs| && PostedAll(evs)[k] == Posted(evs[k])
    decreases |evs|
  {
    if k > 0 {
      PostedAllAt(evs[1..], k - 1);
    }
  }

  /** The `eachLimit(unprocessedEvents, 1, processEvent, ...)` loop: deliver the events in order. */
  method DeliverEvents(cursor: Cursor, notifier: Notifier, evs: seq<Event>, ghost posts: seq<Delivery>)
    requires cursor.Durable()
    requires posts == PostedAll(evs)
    modifies cursor, notifier
    ensures cursor.Durable()
    ensures cursor.sequence == old(cursor.sequence) && cursor.index == old(cursor.index) + |evs|
    ensures notifier.accepted == old(notifier.accepted) + posts
    ensures notifier.attempts == old(notifier.attempts) + AttemptLog(posts, old(notifier.faults))
    ensures notifier.faults == FaultsAfter(posts, old(notifier.faults))
  {
    ghost var faults := notifier.faults;
    for i := 0 to |evs|
      invariant cursor.Durable()
      invariant cursor.sequence == old(cursor.sequence) && cursor.index == old(cursor.index) + i
      invariant notifier.accepted == old(notifier.accepted) + posts[..i]
      invariant notifier.attempts == old(notifier.attempts) + AttemptLog(posts[..i], faults)
      invariant notifier.faults == FaultsAfter(posts[..i], faults)
    {
      PostedAllAt(evs, i);
      ProcessEvent(cursor, notifier, evs[i]);
      TakeOneMore(posts, i);
      AppendAssoc(old(notifier.accepted), posts[..i], [posts[i]]);
      AttemptLogStep(posts, i, faults);
      AppendAssoc(old(notifier.attempts), AttemptLog(posts[..i], faults),
                  Repeat(posts[i], FailuresAhead(FaultsAfter(posts[..i], faults)) + 1));
    }
    TakeAll(posts);
  }

  /**
    `processCommit`: skip a commit no newer than the cursor; otherwise tag and
    deliver, in order, its events after the cursor's index, then mark the
    commit done.
   */
  method ProcessCommit(cursor: Cursor, notifier: Notifier, c: Commit)
    requires cursor.Durable() && DistinctEvents(c.events)
    modifies cursor, notifier, c.events
    ensures cursor.Durable()
    ensures cursor.Current() == AfterCommit(old(cursor.Current()), Data(c))
    ensures notifier.accepted == old(notifier.accepted) + CommitDeliveries(old(cursor.Current()), Data(c))
    ensures notifier.attempts == old(notifier.attempts) + AttemptLog(CommitDeliveries(old(cursor.Current()), Data(c)), old(notifier.faults))
    ensures notifier.faults == FaultsAfter(CommitDeliveries(old(cursor.Current()), Data(c)), old(notifier.faults))
    ensures c.sequence <= old(cursor.sequence) ==> unchanged(cursor, notifier) && unchanged(c.events)
  {
    if c.sequence <= cursor.sequence {
      EmptyAppend([], notifier.attempts);
      AppendEmpty(notifier.attempts);
      return;
    }
    ProcessNewCommit(cursor, notifier, c);
  }

  /** The part of `processCommit` after the skip guard. */
  method ProcessNewCommit(cursor: Cursor, notifier: Notifier, c: Commit)
    requires cursor.Durable() && DistinctEvents(c.events)
    requires c.sequence > cursor.sequence
    modifies cursor, notifier, c.events
    ensures cursor.Durable()
    ensures cursor.Current() == CursorRecord(c.sequence, -1)
    ensures notifier.accepted == old(notifier.accepted) + CommitDeliveries(old(cursor.Current()), Data(c))
    ensures notifier.attempts == old(notifier.attempts) + AttemptLog(CommitDeliveries(old(cursor.Current()), Data(c)), old(notifier.faults))
    ensures notifier.faults == FaultsAfter(CommitDeliveries(old(cursor.Current()), Data(c)), old(notifier.faults))
  {
    ghost var start := cursor.Current();
    ghost var expected := CommitDeliveries(start, Data(c));
    var unprocessed := TagUnprocessed(c, cursor.index);
    DeliverEvents(cursor, notifier, unprocessed, expected);
    cursor.IncrementSequence(c.sequence);
  }

  /** The `filter` and `map` of `processCommit`: the events after position `index`, tagged in place. */
  method TagUnprocessed(c: Commit, index: int) returns (kept: seq<Event>)
    requires DistinctEvents(c.events)
    modifies c.events
    ensures kept == Unprocessed(c.events, index)
    ensures Tags(kept, c.sequence)
    ensures PostedAll(kept) == Tagged(Unprocessed(Payloads(c.events), index), c.sequence)
  {
    kept := Unprocessed(c.events, index);
    UnprocessedEvents(c.events, index);
    TagEvents(kept, c.sequence);
    UnprocessedPayloads(c.events, index);
    TaggedAsPosted(kept, c.sequence);
  }

  /** The kept events are distinct events of the commit. */
  lemma UnprocessedEvents(evs: seq<Event>, index: int)
    requires DistinctEvents(evs)
    ensures DistinctEvents(Unprocessed(evs, index))
    ensures forall e :: e in Unprocessed(evs, index) ==> e in evs
  {
    var k := Clamp(index + 1, |evs|);
    assert Unprocessed(evs, index) == evs[k..];
  }

  /** The bodies of the kept events are the kept bodies. */
  lemma UnprocessedPayloads(evs: seq<Event>, index: int)
    ensures Payloads(Unprocessed(evs, index)) == Unprocessed(Payloads(evs), index)
  {
    var k := Clamp(index + 1, |evs|);
    assert Unprocessed(evs, index) == evs[k..];
    assert Unprocessed(Payloads(evs), index) == Payloads(evs)[k..];
  }

  /** Once tagged, posting the kept events sends exactly their tagged bodies. */
  lemma TaggedAsPosted(evs: seq<Event>, sequence: int)
    requires Tags(evs, sequence)
    ensures PostedAll(evs) == Tagged(Payloads(evs), sequence)
  {
    forall k | 0 <= k < |evs|
      ensures PostedAll(evs)[k] == Tagged(Payloads(evs), sequence)[k]
    {
      PostedAllAt(evs, k);
    }
  }

  /** `processCommits`: the commits of a batch, one at a time, in batch order. */
  method ProcessCommits(cursor: Cursor, notifier: Notifier, commits: seq<Commit>)
    requires cursor.Durable()
    requires forall i :: 0 <= i < |commits| ==> DistinctEvents(commits[i].events)
    modifies cursor, notifier, EventsOf(commits)
    ensures cursor.Durable()
    ensures cursor.Current() == BatchCursor(old(cursor.Current()), DataOf(commits))
    ensures notifier.accepted == old(notifier.accepted) + BatchDeliveries(old(cursor.Current()), DataOf(commits))
    ensures notifier.attempts == old(notifier.attempts) + AttemptLog(BatchDeliveries(old(cursor.Current()), DataOf(commits)), old(notifier.faults))
    ensures notifier.faults == FaultsAfter(BatchDeliveries(old(cursor.Current()), DataOf(commits)), old(notifier.faults))
  {
    ghost var start := cursor.Current();
    ghost var data := DataOf(commits);
    ghost var before := notifier.accepted;
    ghost var tried := notifier.attempts;
    ghost var faults := notifier.faults;
    for i := 0 to |commits|
      invariant cursor.Durable()
      invariant cursor.Current() == BatchCursor(start, data[..i])
      invariant notifier.accepted == before + BatchDeliveries(start, data[..i])
      invariant notifier.attempts == tried + AttemptLog(BatchDeliveries(start, data[..i]), faults)
      invariant notifier.faults == FaultsAfter(BatchDeliveries(start, data[..i]), faults)
    {
      EventsOfCovers(commits, i);
      ghost var done := BatchDeliveries(start, data[..i]);
      ghost var step := CommitDeliveries(BatchCursor(start, data[..i]), data[i]);
      ProcessCommit(cursor, notifier, commits[i]);
      BatchPrefixStep(start, data, i);
      AppendAssoc(before, done, step);
      AttemptLogSplit(done, step, faults);
      AppendAssoc(tried, AttemptLog(done, faults), AttemptLog(step, FaultsAfter(done, faults)));
    }
    TakeAll(data);
  }

  /**
    One round of `pollCommits`: build the URL from the cursor, then process the
    batch the endpoint answered with; `None` is a failed fetch, after which the
    cursor is left as it was and the poll is retried.
   */
  method PollOnce(cursor: Cursor, notifier: Notifier, template: string, response: Option<seq<Commit>>)
    returns (url: string)
    requires cursor.Durable()
    requires response.Some? ==> forall i :: 0 <= i < |response.value| ==> DistinctEvents(response.value[i].events)
    modifies cursor, notifier, if response.Some? then EventsOf(response.value) else {}
    ensures url == PollUrl(template, old(cursor.sequence))
    ensures cursor.Durable()
    ensures response.None? ==> unchanged(cursor, notifier)
    ensures response.Some? ==>
      && cursor.Current() == BatchCursor(old(cursor.Current()), DataOf(response.value))
      && notifier.accepted == old(notifier.accepted) + BatchDeliveries(old(cursor.Current()), DataOf(response.value))
      && notifier.attempts == old(notifier.attempts) + AttemptLog(BatchDeliveries(old(cursor.Current()), DataOf(response.value)), old(notifier.faults))
      && notifier.faults == FaultsAfter(BatchDeliveries(old(cursor.Current()), DataOf(response.value)), old(notifier.faults))
  {
    url := PollUrl(template, cursor.sequence);
    if response.Some? {
      ProcessCommits(cursor, notifier, response.value);
    }
  }
}
